# Mallorca itinerary: the sequential core, modelled and proved in Dafny

The itinerary app keeps a list of stops (locations), each with a name, coordinates,
a day tag (`day1` .. `day5`), a time of day and a description. This project models
the part of it that is plain sequential logic:

- **The expiring cache** over the browser's `localStorage` (`cache_store.dfy`,
  module `CacheStore`). It is a class whose fields are the storage map and the
  availability the probe finds. The storage map goes from key to `Raw`, the parse
  of the stored text: a well-formed entry or `Corrupt`. Every operation has the
  same shape. The method changes the map, and its `ensures` ties the new map and
  the result to a function of the old map. Lemmas about those functions state what
  the cache promises:
  - a read-through that honours the expiry time, inclusive at the boundary;
  - a corrupt entry counts as absent;
  - `clear` and the sweep touch exactly the cache's own namespace.
- **The location access service** (`location_service.dfy`, module
  `LocationAccess`). This is the client-side read-through and invalidation logic
  over that cache. Each REST call is a reply parameter: a success envelope, an
  unsuccessful envelope, or a thrown error.
- **The `/api/locations` route** (`locations_route.dfy`, module `LocationsRoute`).
  `POST` is an ordered chain of guards that ends in an insert. `GET` initializes
  the table and lists it.
- **The persistence layer** (`persistence.dfy`, module `Persistence`, with the
  starter rows in `seed_data.dfy`). The `locations` table is a map from id to row
  plus its SERIAL counter. The layer covers:
  - table creation with seed-if-empty;
  - the day-rank ordering of the list query;
  - insert and delete;
  - the `UPDATE` statement builder, with its numbered placeholders.
- **Travel-time annotation and place lookup** (`travel_times.dfy`, module
  `TravelTimes`; `places.dfy`, module `Places`):
  - `calculateTravelTimes` groups the stops by day, sorts each group by time and
    asks a distance oracle for each consecutive pair. It writes each answer onto
    the first stop that matches the destination. The method works on an array
    copy, as the source does. Its result is proved equal to a reference function,
    `Annotated`, and the properties are lemmas about that function.
  - The place helpers share one memo dictionary in front of an oracle for the
    places service.

These are parameters of the model rather than modelled behaviour:

- The clock (`Date.now`): every reading the source takes is a parameter.
  - Most calls read it once, as `now`.
  - `fetchLocations` reads it a second time, after the network call, as `later`.
  - `cleanupExpired` reads it once per key it judges, as `at(k)`.
  - `getCacheStatus` reads it four times, as `t1` to `t4`.
- The network replies, and whether the storage quota is exceeded.
- The distance and places services, as oracles.
- The string comparison `localeCompare`, as a comparator parameter.

`Wrappers` (`Option`, `Result`), `Text` (ECMAScript `trim`, substring search and
integer printing) and `LocationModel` (the shared `Location` record, column widths
and day tags) are shared helpers.

Behaviours of the code worth knowing, each proved about the model:

- **The stale-cache fallback in `fetchLocations` never serves anything.**
  - After a failed request, the catch block reads the list again into
    `staleCache` and logs "Using stale cache data due to network error"
    (app/services/locationService.ts:58-61).
  - The earlier `get` at line 31 has already deleted any entry that was expired
    or unparseable.
  - So in a sequential run, a fetch that reaches the network and fails always
    rethrows. (`LocationAccess.FailedFetchRethrows`)
- **Whitespace-only text passes `POST` validation and is stored empty.** The
  emptiness check comes before trimming. (`LocationsRoute.WhitespaceOnlyStoredEmpty`)
- **`deleteLocation` has no not-found signal.** It answers `true` whether or not
  a row matched. (`Persistence.Delete`)
- **A seed that is cut short stays short.**
  - `initializeDatabase` sends its statements one by one, each committed on its own.
  - If the k-th starter-row INSERT fails, k rows remain. Because the count is
    then not 0, no later run seeds the rest. (`Persistence.TruncatedSeedPersists`)
  - If the COUNT fails, the table exists and is empty. When the list query
    that follows succeeds, `GET` answers 200 with an empty list.
    (`LocationsRoute.EmptyListAfterCountFails`)
- **A rejected insert uses up an id.** The SERIAL default is drawn before the
  row is checked. (`Persistence.FailedCreateSkipsId`)
- **A text value with only spaces past its column's width is stored cut, not
  refused.** PostgreSQL cuts such a value to the `VARCHAR` width, so "day1"
  followed by seven spaces is stored as "day1" and six spaces. Any other
  over-wide value fails the statement. Through `POST` this cannot arise,
  because the text is trimmed first. (`Persistence.CreateDropsOnlySpaces`,
  `Persistence.PaddedDayIsCut`, `LocationsRoute.CreatedRowIsTrimmedInput`)
- **An UPDATE can fail on a coordinate that an INSERT through `POST` never
  sees.** `updateLocation` sends whatever coordinates it is given. A latitude
  of 100 or more in absolute value overflows `DECIMAL(10, 8)` and the statement
  throws, and so does a longitude of 1000 or more in `DECIMAL(11, 8)`.
  (`Persistence.UpdateLocation`)
- **A travel leg can be written onto the wrong stop.** See Findings.

## Model

| member | source | states |
|---|---|---|
| CacheStore.StorageKey | app/services/cacheService.ts:37-39 | the storage key lies in the `mallorca_cache_` namespace, gives the cache key back when the prefix is stripped, and is never the probe's key |
| CacheStore.PlainKey | app/services/cacheService.ts:181-182 | stripping the prefix from a namespaced key is the inverse of generating it |
| CacheStore.CacheService.Probe | app/services/cacheService.ts:26-35 | the probe reports availability; on available storage its only effect is that the probe key is gone |
| CacheStore.CacheService.Set | app/services/cacheService.ts:41-63 | success exactly when storage is available and the write is accepted; then the store holds `{data, now, now + ttl'}` under the namespaced key; otherwise the store is unchanged (but for the probe) |
| CacheStore.CacheService.Get | app/services/cacheService.ts:65-92 | the result and the new store are the lookup at `now`: fresh data, or nothing with a stale or corrupt entry removed; unavailable storage gives nothing and changes nothing |
| CacheStore.CacheService.Remove | app/services/cacheService.ts:94-107 | the namespaced key is gone and nothing else changes; the answer is the availability |
| CacheStore.CacheService.Clear | app/services/cacheService.ts:109-126 | the loop over a key snapshot leaves exactly `Cleared(old store)` |
| CacheStore.CacheService.IsExpired | app/services/cacheService.ts:128-146 | expired exactly when storage is unavailable or the entry is absent, corrupt or past its expiry; nothing but the probe key is removed |
| CacheStore.CacheService.GetCacheInfo | app/services/cacheService.ts:148-170 | reports the timestamp, the expiry and the age of any well-formed entry, checks no expiry and removes nothing |
| CacheStore.CacheService.CleanupExpired | app/services/cacheService.ts:172-191 | the loop leaves exactly `Swept(old store, at)`, each key judged at its own clock reading `at(k)`, and returns the number of namespaced keys stale or corrupt at their reading; returns 0 and changes nothing when storage is unavailable |
| CacheStore.SetThenGet | app/services/cacheService.ts:48-54 | a value written with `set` is read back until `now + ttl'` inclusive and not after; read back at once exactly when `ttl' >= 0` |
| CacheStore.SetIsolated | app/services/cacheService.ts:56-57 | `set` under one key leaves every other key's lookup as it was |
| CacheStore.ExpiryBoundary | app/services/cacheService.ts:81-86 | `get` returns nothing and deletes the entry exactly when `now > expiresAt`; at `expiresAt` it still returns the data |
| CacheStore.CorruptIsAbsent | app/services/cacheService.ts:87-90 | an unparseable entry is absent for `get` (which removes it), expired for `isExpired` and absent for `getCacheInfo` |
| CacheStore.MissIsFinal | app/services/cacheService.ts:74-84 | after a `get` that finds nothing, the entry is gone, and no later `get` of that key finds anything |
| CacheStore.InfoIgnoresExpiry | app/services/cacheService.ts:161-166 | `getCacheInfo` reports an entry expired or not, with `age = now - timestamp` |
| CacheStore.ClearedExactly | app/services/cacheService.ts:115-120 | `clear` keeps exactly the keys outside the namespace, each with its value; the probe's own key is gone |
| CacheStore.SweptExactly | app/services/cacheService.ts:172-191 | the sweep keeps every namespaced entry still live at its reading and every foreign key, values untouched, leaves no entry stale at its reading, and the count is the number of keys removed |
| CacheStore.SweepBetween | app/services/cacheService.ts:142-191 | with every reading between `start` and `end`, in any order: an entry already stale at `start` is removed, and one still live at `end` is kept with its value |
| LocationAccess.LocationKey | app/services/locationService.ts:11-15 | the per-location key `location_<id>` is never one of the two list keys |
| LocationAccess.WriteError | app/services/locationService.ts:81-82 | a failed write rethrows the thrown message, the server's `error` when it is truthy, or the default message |
| LocationAccess.FetchError | app/services/locationService.ts:43-45 | an unsuccessful envelope becomes "Failed to fetch locations"; a thrown error is rethrown as it is |
| LocationAccess.FreshHitSkipsNetwork | app/services/locationService.ts:30-35 | with the cache on and a fresh list entry, the list is returned without a network call, an empty list included |
| LocationAccess.CacheOffBypassesStore | app/services/locationService.ts:27-53 | with the cache off, the network is always asked and the storage is neither read nor written |
| LocationAccess.FailedFetchRethrows | app/services/locationService.ts:54-65 | a fetch that reaches the network and fails always rethrows: the stale fallback never serves anything |
| LocationAccess.SecondFetchWithinTtlIsCached | app/services/locationService.ts:27-53 | a successful fetch on a cold cache stores the list with its TTL (5 minutes by default); a second fetch inside that window is served from the cache without a request |
| LocationAccess.WithTravelInfo | app/services/locationService.ts:143-145 | the kept sublist is no longer than the input, and every location in it has a truthy travel time or distance |
| LocationAccess.WithTravelInfoCounts | app/services/locationService.ts:143-145 | every annotated location is kept as often as the input has it, and no other |
| LocationAccess.WithTravelInfoAppend | app/services/locationService.ts:143-145 | the filter keeps order: filtering a concatenation concatenates the filtered parts |
| LocationAccess.WithTravelInfoSingle | app/services/locationService.ts:143-145 | a one-element list is kept exactly when its location is annotated |
| LocationAccess.InvalidationRemovesExactly | app/services/locationService.ts:158-167 | invalidation removes exactly the `locations` and `travel_times` entries, and the location's own entry for update and delete; every other key keeps its value in both cases, the probe's key aside |
| LocationAccess.StatusOf | app/services/locationService.ts:178-188 | `cached` exactly when info exists; the age and the time to expiry are whole seconds rounded down |
| LocationAccess.ExpiredEntryReportedCached | app/services/locationService.ts:174-189 | an expired entry that has not been read since is reported as cached, with a negative time left whenever the later reading is not earlier than the first |
| LocationAccess.StatusWithinLifetime | app/services/locationService.ts:174-189 | age and time left, read at `t1 <= t3`, add up to at most the entry's lifetime in whole seconds, and read at one instant fall short of it by less than two seconds |
| LocationAccess.LocationService.FetchLocations | app/services/locationService.ts:26-67 | result, network use and new store are those of `FetchOutcome`; a failed request after a miss rethrows its error |
| LocationAccess.LocationService.CreateLocation | app/services/locationService.ts:69-92 | success returns the row and invalidates exactly the two list entries; failure rethrows the message and leaves the cache alone |
| LocationAccess.LocationService.UpdateLocation | app/services/locationService.ts:94-118 | success returns the row and removes `location_<id>` and the two list entries; failure leaves the cache alone |
| LocationAccess.LocationService.DeleteLocation | app/services/locationService.ts:120-140 | success returns `true` and removes `location_<id>` and the two list entries; failure leaves the cache alone |
| LocationAccess.LocationService.CacheTravelTimesData | app/services/locationService.ts:142-152 | writes the travel sublist under `travel_times` with a 30-minute TTL, and writes nothing when that sublist is empty |
| LocationAccess.LocationService.GetCachedTravelTimes | app/services/locationService.ts:154-156 | the travel snapshot is a `get` of `travel_times` |
| LocationAccess.LocationService.InvalidateLocationsCache | app/services/locationService.ts:158-162 | removes the `locations` and `travel_times` entries |
| LocationAccess.LocationService.InvalidateLocationCache | app/services/locationService.ts:164-167 | removes the `location_<id>` entry |
| LocationAccess.LocationService.ClearAllCache | app/services/locationService.ts:169-172 | clears the cache's namespace |
| LocationAccess.LocationService.GetCacheStatus | app/services/locationService.ts:174-190 | each line is the status of the entry's info, expired or not: info read at `t1` or `t2`, time left at `t3` or `t4`; both lines `NotCached` on unavailable storage; only the probe key is removed |
| LocationAccess.LocationService.PreloadData | app/services/locationService.ts:192-198 | a cached fetch whose error is swallowed: the store ends as the fetch leaves it |
| LocationsRoute.GuardsInOrder | app/api/locations/route.ts:35-66 | the first failing guard is, in order: missing fields, then day tag, then NaN, then range |
| LocationsRoute.Validate | app/api/locations/route.ts:33-75 | rejects exactly when a guard fails, with the first failing guard's message; otherwise inserts the trimmed text and the parsed coordinates, or throws when a text member is not a string |
| LocationsRoute.Post | app/api/locations/route.ts:28-88 | 400 exactly on a rejecting body, with the database untouched; 201 exactly when the insert is reached and accepted, with the created row; 500 "Failed to create location" otherwise; a rejected insert still uses up an id |
| LocationsRoute.Respond | app/api/locations/route.ts:36-87 | on a judged body: 400 with the message exactly for a rejection; 500 "Failed to create location" for a throw, a failed connection or a rejected insert; 201 with the row `Create` adds otherwise; the table is the one the INSERT leaves |
| LocationsRoute.RouteInsertFailsOnlyOnWidth | app/api/locations/route.ts:61-75 | validated coordinates fit their DECIMAL columns, so an insert reached through `POST` fails exactly when a text column refuses its value |
| LocationsRoute.Get | app/api/locations/route.ts:7-24 | initializes the table; lists every row in day-rank and id order with `count` equal to the number of rows; 500 on failure |
| LocationsRoute.EmptyListAfterCountFails | app/api/locations/route.ts:7-24 | on a fresh database whose initialization fails at the COUNT, `GET` answers 200 with an empty list |
| LocationsRoute.MissingDecidesFirst | app/api/locations/route.ts:35-40 | a falsy text member or an absent coordinate is "Missing required fields" whatever else is wrong; a zero coordinate is not missing |
| LocationsRoute.DayMustBeTag | app/api/locations/route.ts:43-48 | with the other members present, any day that is not one of the five tags is "Invalid day value" |
| LocationsRoute.RangeIsInclusive | app/api/locations/route.ts:61-66 | finite coordinates are accepted exactly inside `[-90, 90] x [-180, 180]`, bounds included |
| LocationsRoute.InfinityIsOutOfRange | app/api/locations/route.ts:51-66 | an infinite coordinate passes the NaN check and fails the range check |
| LocationsRoute.WhitespaceOnlyStoredEmpty | app/api/locations/route.ts:35-75 | a whitespace-only name passes validation and is inserted as the empty string |
| LocationsRoute.NonStringNameFails | app/api/locations/route.ts:68-87 | a truthy non-string name passes every guard, then `trim` throws: 500 and no insert |
| LocationsRoute.CreatedRowIsTrimmedInput | app/api/locations/route.ts:68-80 | a created row carries the trimmed text, uncut by its column, the parsed coordinates, the day as given and a fresh id |
| LocationsRoute.TrimmedKeptWhole | app/api/locations/route.ts:68-75 | a trimmed value does not end in a space, so its column keeps it whole |
| Text.Trim | app/api/locations/route.ts:69-74 | the trimmed text is the infix left after removing all-whitespace runs at both ends, has no whitespace at either end, and is empty exactly when the text is blank |
| Persistence.Insert | lib/db.ts:70-82 | the new row gets the next SERIAL id, the given fields and equal create and update times; the table stays well formed |
| Persistence.Create | lib/db.ts:70-82 | the insert fails exactly when a text column refuses its value (a non-space past the width) or a coordinate exceeds its DECIMAL column; otherwise the row `Insert` describes for the values as stored is added; a failure adds no row but uses up the next id; well-formedness is kept |
| LocationModel.StoredTextMeaning | lib/db.ts:21-25 | a `VARCHAR` column keeps a value exactly when only spaces lie past its width, and keeps it cut to the width (whole when it fits) |
| LocationModel.StoredWhole | lib/db.ts:21-25 | a value that does not end in a space is kept whole or refused, never cut |
| Persistence.CreateDropsOnlySpaces | lib/db.ts:21-25 | a created row keeps each text value up to its column's width and drops only trailing spaces; values within the widths are stored as given |
| Persistence.PaddedDayIsCut | lib/db.ts:24 | "day1" and seven spaces is stored as "day1" and six spaces in `VARCHAR(10)` |
| Persistence.FailedCreateSkipsId | lib/db.ts:70-82 | after a rejected insert the next row gets the id after the one the rejected row would have had |
| Persistence.InsertAllAppends | lib/db.ts:143-187 | inserting a list adds one row per element under consecutive new ids |
| Persistence.InsertAllCount | lib/db.ts:143-187 | the row count grows by the list's length |
| Persistence.SeedInitialData | lib/db.ts:143-187 | the loop inserts every starter row in order |
| SeedData.SeedLocations | lib/db.ts:144-187 | there are 26 starter rows, each on a day tag and with coordinates in range |
| Persistence.Initialize | lib/db.ts:15-46 | reports failure instead of throwing, exactly when a statement it sends fails; a failure at the CREATE changes nothing; a table with rows is left alone; an empty or missing table gets the starter rows inserted before the failing statement, all 26 on success |
| Persistence.SeededValid | lib/db.ts:33-39 | seeding an empty table leaves 26 rows, each on a day tag and in range |
| Persistence.InitializeKeepsWellFormed | lib/db.ts:15-46 | initialization keeps the table well formed, wherever it stops |
| Persistence.InitializeIdempotent | lib/db.ts:15-46 | after a successful initialization, any later run, failing or not, leaves the table as it is |
| Persistence.CountFailureLeavesEmptyTable | lib/db.ts:18-33 | a failure at the COUNT on a missing table leaves it created and empty, and reports failure |
| Persistence.TruncatedSeedPersists | lib/db.ts:33-39 | when starter insert k (0 < k < 26) fails, k rows remain and no later run changes the table |
| Persistence.DayRank | lib/db.ts:53-60 | `day1`..`day5` rank 1..5, and every other day ranks 6 |
| Persistence.ListAll | lib/db.ts:48-68 | every row exactly once, nothing else, strictly ordered by day rank and then id |
| Persistence.Delete | lib/db.ts:133-141 | the row goes if it was there, and the answer is `true` either way |
| Persistence.BuildUpdate | lib/db.ts:84-123 | the SET list has exactly the supplied fields in the order name, lat, lng, day, time, description, numbered `$1..$k`, then `updated_at`; the values end with the id, and WHERE uses `$(k+1)` |
| Persistence.UpdateLocation | lib/db.ts:84-131 | the built query, once run, patches exactly the row with that id (supplied fields replaced, others kept, update time bumped); a missing id changes nothing and returns no row; the text values are stored as their columns keep them; a refused text value, a latitude with |lat| >= 100 or a longitude with |lng| >= 1000 fails the statement |
| Persistence.SuppliedAsPatch | lib/db.ts:90-113 | assigning the supplied fields in order gives the row patched with the values as their columns keep them, and fails exactly when a text column refuses its value or a coordinate overflows its DECIMAL column |
| Persistence.EmptyPatchTouchesOnly | lib/db.ts:115-125 | with no field supplied the statement still runs and only bumps the update time |
| TravelTimes.InsertKeepsSorted | app/components/mapHelpers.ts:30 | inserting into a sorted group keeps it sorted under a total comparator |
| TravelTimes.SortByTimeSorts | app/components/mapHelpers.ts:29-31 | each day group is sorted by time and is a permutation of its input |
| TravelTimes.DaysOfMembers | app/components/mapHelpers.ts:22-28 | the listed days are exactly the days that occur |
| TravelTimes.DaysOfDistinct | app/components/mapHelpers.ts:22-28 | each day is listed once |
| TravelTimes.GroupMembers | app/components/mapHelpers.ts:22-28 | a day's group holds exactly that day's stops |
| TravelTimes.GroupByDay | app/components/mapHelpers.ts:22-28 | the dictionary has exactly the occurring days as keys, each holding its day's stops in input order |
| TravelTimes.SortEachDay | app/components/mapHelpers.ts:29-31 | every group is replaced by its sorted version and no key is added or lost |
| TravelTimes.SortedGroupsSorted | app/components/mapHelpers.ts:29-31 | every sorted group is a permutation of its day's stops and is sorted under a total comparator |
| TravelTimes.PairsAreConsecutive | app/components/mapHelpers.ts:34-36 | a group of n stops gives n - 1 requests, the i-th from stop i to stop i + 1 |
| TravelTimes.RequestsPairStopsOfADay | app/components/mapHelpers.ts:32-50 | each request joins two input stops of the same day, in time order |
| TravelTimes.RequestsCount | app/components/mapHelpers.ts:32-50 | the number of requests is the number of stops minus the number of days |
| TravelTimes.FirstMatch | app/components/mapHelpers.ts:53-56 | the index found matches the destination and no earlier index does; -1 when none does |
| TravelTimes.FindIndex | app/components/mapHelpers.ts:53-56 | the array search finds `FirstMatch` |
| TravelTimes.ApplyLeg | app/components/mapHelpers.ts:51-63 | an unanswered request changes nothing; an answered one writes its leg onto the first stop matching the destination, and every other stop is unchanged |
| TravelTimes.Annotated | app/components/mapHelpers.ts:19-62 | the output has the input's length and every stop keeps all but its two travel fields |
| TravelTimes.RequestLeg | app/components/mapHelpers.ts:37-67 | one request rewrites the array as `ApplyLeg` says |
| TravelTimes.RequestDay | app/components/mapHelpers.ts:34-68 | the inner loop asks for exactly the group's consecutive pairs and applies them in order |
| TravelTimes.RequestDays | app/components/mapHelpers.ts:32-69 | the outer loop asks for every group's pairs in day order |
| TravelTimes.CalculateTravelTimes | app/components/mapHelpers.ts:18-71 | the array result is `Annotated`; the requests are exactly every day group's consecutive pairs, and none when the list is empty or the maps are not loaded |
| TravelTimes.LegsCompose | app/components/mapHelpers.ts:32-69 | applying two request lists one after the other is applying their concatenation |
| TravelTimes.UnansweredRequestIsSkipped | app/components/mapHelpers.ts:51-67 | a rejected or failed request changes nothing and does not stop the later requests |
| TravelTimes.OnlyMatchedStopsChange | app/components/mapHelpers.ts:53-63 | a stop that matches no request's destination is left as it was |
| TravelTimes.AsWrittenFindsTheStop | app/components/mapHelpers.ts:53-56 | with distinct ids and distinct coordinates, the match rule as written finds the destination itself |
| TravelTimes.ByIdFindsTheStop | app/components/mapHelpers.ts:53-56 | with distinct ids, matching by id finds the destination itself |
| TravelTimes.LegLandsOnDestination | app/components/mapHelpers.ts:53-63 | with distinct ids and id matching, an answered leg is written onto its destination |
| TravelTimes.UnaddressedStopKeepsFields | app/components/mapHelpers.ts:53-63 | with distinct ids and id matching, a stop that is no request's destination keeps its fields |
| TravelTimes.FirstOfDayKeepsFields | app/components/mapHelpers.ts:34-63 | with distinct ids and id matching, the first stop of every sorted day group never receives a travel time |
| TravelTimes.MisroutedLeg | app/components/mapHelpers.ts:53-56 | a counterexample: three stops with distinct ids, the hotel twice, once on each of two days; the one leg of day 2 is written onto day 1's first stop |
| TravelTimes.RoutedById | app/components/mapHelpers.ts:53-63 | on the same input, matching by id writes the leg onto day 2's second stop |
| TravelTimes.OneThenTwoGroups | app/components/mapHelpers.ts:22-36 | three stops, one on a first day and two in time order on a second, give the groups [[a], [b, c]] and the single request from b to c |
| TravelTimes.RevisitMisrouted | app/components/mapHelpers.ts:53-63 | on such stops, when the first stop has the coordinates of the third, the match rule as written writes the only leg onto the first stop and leaves the destination untouched |
| TravelTimes.RevisitById | app/components/mapHelpers.ts:53-63 | on the same stops with distinct ids, matching by id writes the only leg onto the third stop |
| Places.LowerChar | app/components/mapHelpers.ts:98-99 | lower case leaves no capital `A`-`Z` |
| Places.LowerIdempotent | app/components/mapHelpers.ts:98-99 | lowering twice is lowering once |
| Places.BestIndex | app/components/mapHelpers.ts:94-104 | the first result whose name contains or is contained in the location's name, lowered; the first result when none matches |
| Places.BestMatch | app/components/mapHelpers.ts:95-104 | the loop with `break` picks the result at `BestIndex` |
| Places.EmptyNameTakesFirst | app/components/mapHelpers.ts:97-99 | an empty location name matches the first result |
| Places.MatchIgnoresCase | app/components/mapHelpers.ts:98-99 | the match does not change when either name is lowered first |
| Places.PlacesCache.FindNearbyPlace | app/components/mapHelpers.ts:82-112 | asks the service exactly on a memo miss; answers `NearbyAnswer`, the remembered place or else the best match of a successful non-empty reply; remembers a new answer and nothing else |
| Places.PlacesCache.TextSearchPlace | app/components/mapHelpers.ts:114-133 | the same memo under the name: answers `TextAnswer`, keeping the first result |
| Places.PlacesCache.GetPlaceDetails | app/components/mapHelpers.ts:135-153 | the same memo under the place id: answers `DetailsAnswer`, keeping an OK reply |
| Places.PlacesCache.LoadPlaceData | app/components/mapHelpers.ts:159-170 | the result and the memo are `LoadOutcome`: the nearby answer when it has a place id, else nothing; the details of that place; the memo keeps every earlier answer, and its only new keys are the coordinates and the place id |
| Places.TextAnswerIsRemembered | app/components/mapHelpers.ts:114-133 | once the text search has answered, searching the same name again, with any service, gives the same answer and remembers nothing new |
| Places.AnswerIsRemembered | app/components/mapHelpers.ts:83-110 | once the nearby lookup has answered, asking again, with any service, gives the same answer and remembers nothing new |
| Places.LoadIsMemoized | app/components/mapHelpers.ts:159-170 | a load that found a place and its details gives, a second time, the same place, details and memo, whatever the services now say |

## Left out

- Concurrency: every `async` operation is one atomic step. The polling and
  preloading that can interleave with a fetch, and writes from other tabs, are
  not modelled.
- `JSON.parse` and `JSON.stringify` are not modelled. A stored string is
  `Parsed(entry)` or `Corrupt`, and a request body is a record of members, each
  absent, a string or a non-string. A stored empty string is `Corrupt` here, so
  `get` removes it, while the source returns `null` and leaves it in place.
  `set` never writes an empty string, so this arises only from writes outside
  the cache.
- `parseFloat` is reduced to NaN, a finite real or an infinity. Partial parses
  such as `"12abc"` are the caller's choice of value. IEEE rounding and `-0`
  are not modelled.
- Persistence.Create, Persistence.UpdateLocation: a coordinate is stored
  unrounded and compared with its column's bound before rounding to eight
  decimal places. A value within 0.000000005 of the bound (a latitude of
  99.999999996, say) rounds onto the bound, and PostgreSQL refuses it where
  the model accepts it.
- CacheStore.CacheService: storage that becomes available or unavailable part
  way through a session is not modelled. `available` is fixed per service.
- CacheStore.CacheService.Set: a failure of `JSON.stringify` is not modelled.
  The storage refusing a write is a boolean parameter.
- Logging (`console.*`) and the singleton accessors `getInstance` are not
  modelled.
- LocationAccess.StatusOf: the `"s"` suffix of the rendered seconds is left out.
  The status holds the two numbers.
- The SQL engine: `CREATE TABLE`, `SELECT COUNT(*)`, the list query, `INSERT`,
  `UPDATE` and `DELETE` are their effects on the table map. The text of the
  `UPDATE` statement is its list of SET items with parameter numbers, not a
  string.
- Persistence: a database connection failure in `GET` and `POST` is one flag.
  `initializeDatabase` takes the number of its first failing statement instead,
  and it alone reports the failure without throwing.
- Persistence.Initialize: a failing starter-row INSERT is taken not to use up
  an id. The starter rows all fit their columns, so such a failure is one of the
  connection or the server.
- TravelTimes: the order in which `Object.keys` lists the day groups is taken to
  be first-occurrence order. Integer-like keys, which JavaScript lists first in
  numeric order, are not modelled. The five day tags are not
  integer-like.
- TravelTimes.SortByTimeSorts: stability of the sort is not stated. The lemma
  gives sortedness and permutation only. `localeCompare` is a comparator
  parameter assumed total (`cmp(a, b) <= 0 || cmp(b, a) <= 0`), not a full
  preorder.
- TravelTimes: the distance service is an oracle from the pair of points to an
  optional leg. A rejected request and an element status other than OK are
  both `None`. The oracle answers the same pair the same way on every call.
- Places: the toLowerCase of characters beyond Latin-1 is not modelled. A place
  result is its name and place id, and the other detail fields are opaque.
- Places: the memo keys are a datatype. Two coordinates printing to the same
  text (`0` and `-0`) are distinct keys in the model.
- `createMarkerIcon`, `createEnhancedInfoContent` and `getPhotoUrl` are not part
  of this model. They build SVG and HTML strings and photo URLs for display.
- The per-id route (`app/api/locations/[id]/route.ts`, which answers `PUT` and
  `DELETE`) is not part of this model. The service's update and delete replies
  are parameters.

## Findings

| source | as written | input that shows it | evidently intended | confidence | as-written member | corrected member |
|---|---|---|---|---|---|---|
| app/components/mapHelpers.ts:53-56 | the leg of a pair is written onto the first stop whose id equals the destination's, or whose coordinates equal the destination's | stops 1 (hotel, day1), 2 (elsewhere, day2), 3 (hotel again, day2), with distinct ids: the one request is 2 to 3, and its leg lands on stop 1, the first stop of day 1 | the leg lands on the destination stop itself, so the first stop of each day never gets a travel time | not executed | TravelTimes.MisroutedLeg | TravelTimes.FirstOfDayKeepsFields |
