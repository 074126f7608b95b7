/** The place lookups of app/components/mapHelpers.ts (`findNearbyPlace`,
    `textSearchPlace`, `getPlaceDetails`): each consults one shared
    dictionary of earlier answers first, asks the places service only on a
    miss, and remembers an answer only when the service reports success.

    The places service is an oracle from the request to its reply. The
    shared dictionary's string keys (`"<lat>,<lng>"`, `"text_<name>"`,
    `"details_<placeId>"`) are a datatype of keys: their three prefixes
    cannot collide, since a coordinate key starts with a digit or `-`. */
module Places {
  import opened Wrappers
  import opened LocationModel
  import Text

  /** The part of a place result the helpers look at. */
  datatype Place = Place(name: string, placeId: string)

  datatype PlaceKey = Nearby(lat: real, lng: real) | TextKey(name: string) | Details(placeId: string)

  /** A search reply: the service status is OK or not, with its results. */
  datatype SearchReply = SearchReply(ok: bool, results: seq<Place>)

  /** The requests the helpers send. */
  datatype NearbyRequest = NearbyRequest(lat: real, lng: real, radius: nat, kind: string, keyword: string)
  datatype TextRequest = TextRequest(query: string, lat: real, lng: real, radius: nat)
  datatype DetailsRequest = DetailsRequest(placeId: string, fields: seq<string>)

  const NearbyRadius: nat := 100
  const TextRadius: nat := 1000
  const DetailFields: seq<string> :=
    ["name", "rating", "reviews", "photos", "formatted_phone_number", "website", "opening_hours", "price_level"]

  function NearbyRequestFor(l: Location): NearbyRequest
  {
    NearbyRequest(l.lat, l.lng, NearbyRadius, "tourist_attraction", l.name)
  }

  function TextRequestFor(l: Location): TextRequest
  {
    TextRequest(l.name + " Mallorca Spain", l.lat, l.lng, TextRadius)
  }

  // ---------------------------------------------------------------------
  // Lower case and the name match

  /** `toLowerCase` on the Basic Latin and Latin-1 letters: `A`-`Z` and
      `À`-`Þ` except the multiplication sign move up by 32. */
  function LowerChar(c: char): (r: char)
    ensures !('A' <= r <= 'Z')
  {
    if 'A' <= c <= 'Z' || ('À' <= c <= 'Þ' && c != '×') then (c as int + 32) as char else c
  }

  function Lower(s: string): (r: string)
    ensures |r| == |s|
    ensures forall i :: 0 <= i < |s| ==> r[i] == LowerChar(s[i])
  {
    if s == [] then [] else [LowerChar(s[0])] + Lower(s[1..])
  }

  /** Lowering twice is lowering once. */
  lemma LowerIdempotent(s: string)
    ensures Lower(Lower(s)) == Lower(s)
  {
    forall i | 0 <= i < |s|
      ensures Lower(Lower(s))[i] == Lower(s)[i]
    {
      var c := s[i];
      if 'A' <= c <= 'Z' || ('À' <= c <= 'Þ' && c != '×') {
        assert LowerChar(LowerChar(c)) == LowerChar(c);
      }
    }
  }

  /** A result name and a location name match when either, lowered,
      contains the other. */
  predicate NamesMatch(resultName: string, locationName: string)
  {
    Text.Contains(Lower(resultName), Lower(locationName)) || Text.Contains(Lower(locationName), Lower(resultName))
  }

  /** The index of the first result whose name matches, or 0 when none does. */
  function BestIndex(results: seq<Place>, name: string): (r: nat)
    requires results != []
    ensures r < |results|
    ensures NamesMatch(results[r].name, name) || (r == 0 && forall k :: 0 <= k < |results| ==> !NamesMatch(results[k].name, name))
    ensures forall k :: 0 <= k < r ==> !NamesMatch(results[k].name, name)
  {
    if NamesMatch(results[0].name, name) || |results| == 1 then 0
    else
      var i := BestIndex(results[1..], name);
      if NamesMatch(results[1..][i].name, name) then i + 1 else 0
  }

  /** The loop with `break` choosing the best of the nearby results. */
  method BestMatch(results: seq<Place>, name: string) returns (best: Place)
    requires results != []
    ensures best == results[BestIndex(results, name)]
  {
    best := results[0];
    for i := 0 to |results|
      invariant best == results[0]
      invariant forall k :: 0 <= k < i ==> !NamesMatch(results[k].name, name)
    {
      if NamesMatch(results[i].name, name) {
        best := results[i];
        return;
      }
    }
  }

  /** A location with an empty name matches the first result: the empty
      text is contained in every name. */
  lemma EmptyNameTakesFirst(results: seq<Place>)
    requires results != []
    ensures BestIndex(results, "") == 0
  {
    assert Text.InfixAt(Lower(results[0].name), Lower(""), 0);
  }

  /** The match ignores the case of Latin letters in either name. */
  lemma MatchIgnoresCase(resultName: string, locationName: string)
    ensures NamesMatch(Lower(resultName), locationName) == NamesMatch(resultName, locationName)
    ensures NamesMatch(resultName, Lower(locationName)) == NamesMatch(resultName, locationName)
  {
    LowerIdempotent(resultName);
    LowerIdempotent(locationName);
  }

  // ---------------------------------------------------------------------
  // The shared memo

  type Memo = map<PlaceKey, Place>

  /** What `findNearbyPlace` answers on the memo `m`: the remembered place,
      else the best match of a successful non-empty reply, else nothing. */
  function NearbyAnswer(m: Memo, l: Location, service: NearbyRequest -> SearchReply): Option<Place>
  {
    var key := Nearby(l.lat, l.lng);
    if key in m then Some(m[key])
    else
      var reply := service(NearbyRequestFor(l));
      if reply.ok && reply.results != [] then Some(reply.results[BestIndex(reply.results, l.name)]) else None
  }

  /** What `textSearchPlace` answers: the remembered place, else the first
      result of a successful non-empty reply, else nothing. */
  function TextAnswer(m: Memo, l: Location, service: TextRequest -> SearchReply): Option<Place>
  {
    var key := TextKey(l.name);
    if key in m then Some(m[key])
    else
      var reply := service(TextRequestFor(l));
      if reply.ok && reply.results != [] then Some(reply.results[0]) else None
  }

  /** What `getPlaceDetails` answers: the remembered details, else the reply. */
  function DetailsAnswer(m: Memo, placeId: string, service: DetailsRequest -> Option<Place>): Option<Place>
  {
    var key := Details(placeId);
    if key in m then Some(m[key]) else service(DetailsRequest(placeId, DetailFields))
  }

  /** The memo after a lookup under `key` answered `a`: an answer is
      remembered, nothing is remembered for no answer. */
  function Remember(m: Memo, key: PlaceKey, a: Option<Place>): Memo
  {
    if a.Some? then m[key := a.value] else m
  }

  /** What `loadPlaceData` yields on the memo `m`: the nearby answer when it
      has a place id, then that place's details on the memo the nearby
      lookup left, and the memo afterwards. */
  function LoadOutcome(m: Memo, l: Location, nearby: NearbyRequest -> SearchReply,
                       details: DetailsRequest -> Option<Place>): (Option<Place>, Option<Place>, Memo)
  {
    var found := NearbyAnswer(m, l, nearby);
    var m1 := Remember(m, Nearby(l.lat, l.lng), found);
    if found.Some? && found.value.placeId != "" then
      var d := DetailsAnswer(m1, found.value.placeId, details);
      (found, d, Remember(m1, Details(found.value.placeId), d))
    else (None, None, m1)
  }

  /** A lookup answers from the memo once it has answered: asked again, with
      any service, it gives the same answer and remembers nothing new. */
  lemma AnswerIsRemembered(m: Memo, l: Location, service: NearbyRequest -> SearchReply,
                           service2: NearbyRequest -> SearchReply)
    requires NearbyAnswer(m, l, service).Some?
    ensures var a := NearbyAnswer(m, l, service);
            var m1 := Remember(m, Nearby(l.lat, l.lng), a);
            NearbyAnswer(m1, l, service2) == a && Remember(m1, Nearby(l.lat, l.lng), a) == m1
  {
  }

  /** The same for the text search: a remembered first result answers every
      later search by that name. */
  lemma TextAnswerIsRemembered(m: Memo, l: Location, service: TextRequest -> SearchReply,
                               service2: TextRequest -> SearchReply)
    requires TextAnswer(m, l, service).Some?
    ensures var a := TextAnswer(m, l, service);
            var m1 := Remember(m, TextKey(l.name), a);
            TextAnswer(m1, l, service2) == a && Remember(m1, TextKey(l.name), a) == m1
  {
  }

  /** A load that found a place and its details answers a second time from
      the memo alone: the same place, the same details, the same memo,
      whatever the services would now say. */
  lemma LoadIsMemoized(m: Memo, l: Location, nearby: NearbyRequest -> SearchReply,
                       details: DetailsRequest -> Option<Place>, nearby2: NearbyRequest -> SearchReply,
                       details2: DetailsRequest -> Option<Place>)
    requires LoadOutcome(m, l, nearby, details).1.Some?
    ensures LoadOutcome(LoadOutcome(m, l, nearby, details).2, l, nearby2, details2) == LoadOutcome(m, l, nearby, details)
  {
    var found := NearbyAnswer(m, l, nearby);
    var m1 := Remember(m, Nearby(l.lat, l.lng), found);
    var d := DetailsAnswer(m1, found.value.placeId, details);
    var m2 := Remember(m1, Details(found.value.placeId), d);
    assert found.Some? && found.value.placeId != "" && d.Some?;
    assert LoadOutcome(m, l, nearby, details) == (found, d, m2);
    assert Details(found.value.placeId) != Nearby(l.lat, l.lng);
    assert NearbyAnswer(m2, l, nearby2) == found;
    assert Remember(m2, Nearby(l.lat, l.lng), found) == m2;
    assert DetailsAnswer(m2, found.value.placeId, details2) == d;
    assert Remember(m2, Details(found.value.placeId), d) == m2;
  }

  /** The dictionary shared by the three lookups. */
  class PlacesCache {
    var entries: Memo

    constructor()
      ensures entries == map[]
    {
      entries := map[];
    }

    /** `findNearbyPlace`: a cached answer for the coordinates is returned
        without asking; otherwise a successful non-empty reply is narrowed
        to its best match, remembered and returned, and anything else gives
        `None` and remembers nothing. */
    method FindNearbyPlace(l: Location, service: NearbyRequest -> SearchReply) returns (r: Option<Place>, asked: bool)
      modifies this
      ensures asked <==> Nearby(l.lat, l.lng) !in old(entries)
      ensures r == NearbyAnswer(old(entries), l, service)
      ensures entries == Remember(old(entries), Nearby(l.lat, l.lng), r)
    {
      var key := Nearby(l.lat, l.lng);
      if key in entries {
        return Some(entries[key]), false;
      }
      var reply := service(NearbyRequestFor(l));
      asked := true;
      if reply.ok && |reply.results| > 0 {
        var best := BestMatch(reply.results, l.name);
        entries := entries[key := best];
        r := Some(best);
      } else {
        r := None;
      }
    }

    /** `textSearchPlace`: the same memo under the name, keeping the first
        result of a successful non-empty reply. */
    method TextSearchPlace(l: Location, service: TextRequest -> SearchReply) returns (r: Option<Place>, asked: bool)
      modifies this
      ensures asked <==> TextKey(l.name) !in old(entries)
      ensures r == TextAnswer(old(entries), l, service)
      ensures entries == Remember(old(entries), TextKey(l.name), r)
    {
      var key := TextKey(l.name);
      if key in entries {
        return Some(entries[key]), false;
      }
      var reply := service(TextRequestFor(l));
      asked := true;
      if reply.ok && |reply.results| > 0 {
        entries := entries[key := reply.results[0]];
        r := Some(reply.results[0]);
      } else {
        r := None;
      }
    }

    /** `getPlaceDetails`: the same memo under the place id; the reply is the
        place when the status is OK. */
    method GetPlaceDetails(placeId: string, service: DetailsRequest -> Option<Place>) returns (r: Option<Place>, asked: bool)
      modifies this
      ensures asked <==> Details(placeId) !in old(entries)
      ensures r == DetailsAnswer(old(entries), placeId, service)
      ensures entries == Remember(old(entries), Details(placeId), r)
    {
      var key := Details(placeId);
      if key in entries {
        return Some(entries[key]), false;
      }
      var reply := service(DetailsRequest(placeId, DetailFields));
      asked := true;
      if reply.Some? {
        entries := entries[key := reply.value];
      }
      r := reply;
    }

    /** `loadPlaceData`: the nearby place and, when it has a place id, its
        details. A nearby place without a place id is dropped: both halves
        come back empty. The memo only grows: no remembered answer is
        changed, and the only new keys are the coordinates and the place id. */
    method LoadPlaceData(l: Location, nearby: NearbyRequest -> SearchReply, details: DetailsRequest -> Option<Place>)
      returns (place: Option<Place>, placeDetails: Option<Place>)
      modifies this
      ensures (place, placeDetails, entries) == LoadOutcome(old(entries), l, nearby, details)
      ensures place.Some? ==> place.value.placeId != "" && place == NearbyAnswer(old(entries), l, nearby)
      ensures place.None? ==> placeDetails.None?
      ensures forall k :: k in old(entries) ==> k in entries && entries[k] == old(entries)[k]
      ensures forall k :: k in entries && k !in old(entries) ==>
                k == Nearby(l.lat, l.lng) || (place.Some? && k == Details(place.value.placeId))
    {
      var found, _ := FindNearbyPlace(l, nearby);
      if found.Some? && found.value.placeId != "" {
        var d, _ := GetPlaceDetails(found.value.placeId, details);
        return found, d;
      }
      return None, None;
    }
  }
}
