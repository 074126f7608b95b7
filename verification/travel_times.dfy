/** `calculateTravelTimes` (app/components/mapHelpers.ts): group the
    locations by day, sort each day by its `time` text, ask the distance
    service for the leg between each pair of consecutive stops, and write
    each leg's duration and distance onto the destination.

    The distance service is an oracle: a function from the two coordinate
    pairs to the leg it reports, or `None` when the call is rejected or its
    element status is not OK. `localeCompare` is a comparator parameter,
    assumed to be total where that is needed. */
module TravelTimes {
  import opened Wrappers
  import opened LocationModel

  type Comparator = (string, string) -> int

  /** A comparator under which any two texts are comparable. */
  ghost predicate Total(cmp: Comparator)
  {
    forall a, b :: cmp(a, b) <= 0 || cmp(b, a) <= 0
  }

  /** Each stop's time does not compare after the next one's. */
  predicate SortedByTime(s: seq<Location>, cmp: Comparator)
  {
    forall i :: 0 < i < |s| ==> cmp(s[i - 1].time, s[i].time) <= 0
  }

  /** `x` placed after every leading element that does not compare after it. */
  function InsertByTime(x: Location, s: seq<Location>, cmp: Comparator): (r: seq<Location>)
    ensures multiset(r) == multiset(s) + multiset{x}
    ensures |r| == |s| + 1
    ensures r[0] == x || (s != [] && r[0] == s[0])
  {
    if s == [] then [x]
    else if cmp(s[0].time, x.time) > 0 then [x] + s
    else
      assert s == [s[0]] + s[1..];
      [s[0]] + InsertByTime(x, s[1..], cmp)
  }

  /** `Array.prototype.sort` with `(a, b) => a.time.localeCompare(b.time)`,
      which is stable: an insertion sort that keeps equal elements in their
      input order. */
  function SortByTime(s: seq<Location>, cmp: Comparator): seq<Location>
  {
    if s == [] then [] else InsertByTime(s[|s| - 1], SortByTime(s[..|s| - 1], cmp), cmp)
  }

  lemma {:induction false} InsertKeepsSorted(x: Location, s: seq<Location>, cmp: Comparator)
    requires Total(cmp) && SortedByTime(s, cmp)
    ensures SortedByTime(InsertByTime(x, s, cmp), cmp)
    decreases |s|
  {
    if s == [] {
    } else if cmp(s[0].time, x.time) > 0 {
      assert cmp(x.time, s[0].time) <= 0;
    } else {
      InsertKeepsSorted(x, s[1..], cmp);
      var t := InsertByTime(x, s[1..], cmp);
      var r := [s[0]] + t;
      forall i | 0 < i < |r|
        ensures cmp(r[i - 1].time, r[i].time) <= 0
      {
        if i > 1 {
          assert r[i - 1] == t[i - 2] && r[i] == t[i - 1];
        } else if t[0] != x {
          assert t[0] == s[1];
        }
      }
    }
  }

  /** The sort returns the same locations, ordered by time. */
  lemma {:induction false} SortByTimeSorts(s: seq<Location>, cmp: Comparator)
    requires Total(cmp)
    ensures SortedByTime(SortByTime(s, cmp), cmp)
    ensures multiset(SortByTime(s, cmp)) == multiset(s)
  {
    if s != [] {
      SortByTimeSorts(s[..|s| - 1], cmp);
      InsertKeepsSorted(s[|s| - 1], SortByTime(s[..|s| - 1], cmp), cmp);
      assert s == s[..|s| - 1] + [s[|s| - 1]];
    }
  }

  // ---------------------------------------------------------------------
  // Grouping by day

  /** The distinct days of `s`, in order of first occurrence: the key order
      of the object the stops are grouped into. */
  function DaysOf(s: seq<Location>): seq<string>
  {
    if s == [] then []
    else
      var d := DaysOf(s[..|s| - 1]);
      if s[|s| - 1].day in d then d else d + [s[|s| - 1].day]
  }

  /** The listed days are exactly the days some stop is on. */
  lemma {:induction false} DaysOfMembers(s: seq<Location>)
    ensures forall d :: d in DaysOf(s) <==> exists x :: x in s && x.day == d
  {
    if s != [] {
      DaysOfMembers(s[..|s| - 1]);
      assert s == s[..|s| - 1] + [s[|s| - 1]];
    }
  }

  predicate Distinct<T(==)>(s: seq<T>)
  {
    forall i, j :: 0 <= i < j < |s| ==> s[i] != s[j]
  }

  lemma {:induction false} DaysOfDistinct(s: seq<Location>)
    ensures Distinct(DaysOf(s))
  {
    if s != [] {
      DaysOfDistinct(s[..|s| - 1]);
    }
  }

  /** The stops of day `d`, in input order. */
  function Group(s: seq<Location>, d: string): seq<Location>
  {
    if s == [] then []
    else
      var g := Group(s[..|s| - 1], d);
      if s[|s| - 1].day == d then g + [s[|s| - 1]] else g
  }

  /** A day's group holds exactly the stops on that day. */
  lemma {:induction false} GroupMembers(s: seq<Location>, d: string)
    ensures forall x :: x in Group(s, d) <==> x in s && x.day == d
  {
    if s != [] {
      GroupMembers(s[..|s| - 1], d);
      assert s == s[..|s| - 1] + [s[|s| - 1]];
    }
  }

  /** Both are built one stop at a time. */
  lemma GroupingStep(s: seq<Location>, i: nat)
    requires i < |s|
    ensures DaysOf(s[..i + 1]) == if s[i].day in DaysOf(s[..i]) then DaysOf(s[..i]) else DaysOf(s[..i]) + [s[i].day]
    ensures forall d :: Group(s[..i + 1], d) == if s[i].day == d then Group(s[..i], d) + [s[i]] else Group(s[..i], d)
  {
    assert s[..i + 1][..i] == s[..i];
  }

  /** Each day's stops sorted by time, the days in key order. */
  function SortedGroups(s: seq<Location>, cmp: Comparator): (r: seq<seq<Location>>)
    ensures |r| == |DaysOf(s)|
  {
    var days := DaysOf(s);
    seq(|days|, k requires 0 <= k < |days| => SortByTime(Group(s, days[k]), cmp))
  }

  /** Group `k` holds the stops of the `k`th listed day, sorted by time when
      the comparator is total. */
  lemma SortedGroupsSorted(s: seq<Location>, cmp: Comparator)
    ensures forall k :: 0 <= k < |SortedGroups(s, cmp)| ==>
      multiset(SortedGroups(s, cmp)[k]) == multiset(Group(s, DaysOf(s)[k]))
    ensures Total(cmp) ==> forall k :: 0 <= k < |SortedGroups(s, cmp)| ==> SortedByTime(SortedGroups(s, cmp)[k], cmp)
  {
    var days := DaysOf(s);
    forall k | 0 <= k < |days|
      ensures multiset(SortByTime(Group(s, days[k]), cmp)) == multiset(Group(s, days[k]))
      ensures Total(cmp) ==> SortedByTime(SortByTime(Group(s, days[k]), cmp), cmp)
    {
      if Total(cmp) {
        SortByTimeSorts(Group(s, days[k]), cmp);
      } else {
        SortByTimePermutes(Group(s, days[k]), cmp);
      }
    }
  }

  lemma {:induction false} SortByTimePermutes(s: seq<Location>, cmp: Comparator)
    ensures multiset(SortByTime(s, cmp)) == multiset(s)
  {
    if s != [] {
      SortByTimePermutes(s[..|s| - 1], cmp);
      assert s == s[..|s| - 1] + [s[|s| - 1]];
    }
  }

  /** Every day that occurs has at least one stop. */
  lemma GroupsNonEmpty(s: seq<Location>, cmp: Comparator)
    ensures forall k :: 0 <= k < |SortedGroups(s, cmp)| ==> SortedGroups(s, cmp)[k] != []
  {
    var days := DaysOf(s);
    var gs := SortedGroups(s, cmp);
    SortedGroupsSorted(s, cmp);
    forall k | 0 <= k < |gs|
      ensures gs[k] != []
    {
      DaysOfMembers(s);
      GroupMembers(s, days[k]);
      assert days[k] in days;
      var x :| x in s && x.day == days[k];
      assert x in Group(s, days[k]);
      assert x in multiset(Group(s, days[k]));
    }
  }

  /** Consecutive stops of one day, as (origin, destination). */
  function Pairs(g: seq<Location>): seq<(Location, Location)>
  {
    if |g| < 2 then [] else Pairs(g[..|g| - 1]) + [(g[|g| - 2], g[|g| - 1])]
  }

  /** One request per stop after the first, from its predecessor to it. */
  lemma {:induction false} PairsAreConsecutive(g: seq<Location>)
    ensures |Pairs(g)| == if g == [] then 0 else |g| - 1
    ensures forall i :: 0 <= i < |Pairs(g)| ==> Pairs(g)[i] == (g[i], g[i + 1])
  {
    if |g| >= 2 {
      PairsAreConsecutive(g[..|g| - 1]);
    }
  }

  /** The requests of the given day groups, in order. */
  function RequestsOf(gs: seq<seq<Location>>): seq<(Location, Location)>
  {
    if gs == [] then [] else RequestsOf(gs[..|gs| - 1]) + Pairs(gs[|gs| - 1])
  }

  /** The distance requests `calculateTravelTimes` makes, in order: the
      consecutive stops of each day sorted by time, the days in key order. */
  function Requests(s: seq<Location>, cmp: Comparator): seq<(Location, Location)>
  {
    RequestsOf(SortedGroups(s, cmp))
  }

  // ---------------------------------------------------------------------
  // Writing the legs

  datatype Point = Point(lat: real, lng: real)

  function PointOf(l: Location): Point
  {
    Point(l.lat, l.lng)
  }

  /** The duration and distance texts of one element of a distance-matrix
      response. */
  datatype Leg = Leg(duration: string, distance: string)

  /** The distance service: the leg between two points, or `None` when the
      request is rejected or the element's status is not OK. */
  type Oracle = (Point, Point) -> Option<Leg>

  /** How a leg's destination is looked up in the list being annotated:
      `AsWritten` is the source's rule, equal ids (two absent ids are equal)
      or equal coordinates; `ById` looks at the id when the destination has
      one and falls back to the coordinates only when it does not. */
  datatype MatchRule = AsWritten | ById

  predicate Matches(loc: Location, dest: Location, rule: MatchRule)
  {
    match rule
    case AsWritten => loc.id == dest.id || (loc.lat == dest.lat && loc.lng == dest.lng)
    case ById => if dest.id.Some? then loc.id == dest.id else loc.lat == dest.lat && loc.lng == dest.lng
  }

  /** `findIndex`: the first index whose location matches, or -1. */
  function FirstMatch(u: seq<Location>, dest: Location, rule: MatchRule): (r: int)
    ensures -1 <= r < |u|
    ensures r >= 0 ==> Matches(u[r], dest, rule)
    ensures forall k :: 0 <= k < |u| && (r == -1 || k < r) ==> !Matches(u[k], dest, rule)
  {
    if u == [] then -1
    else if Matches(u[0], dest, rule) then 0
    else
      var i := FirstMatch(u[1..], dest, rule);
      if i == -1 then -1 else i + 1
  }

  function WithLeg(l: Location, leg: Leg): Location
  {
    l.(travelTimeFromPrevious := Some(leg.duration), distanceFromPrevious := Some(leg.distance))
  }

  /** One request: when the service answers, the leg is written onto the
      first matching location; otherwise nothing changes. */
  function ApplyLeg(u: seq<Location>, req: (Location, Location), oracle: Oracle, rule: MatchRule): (r: seq<Location>)
    ensures |r| == |u|
    ensures forall i :: 0 <= i < |u| ==> SameExceptTravel(r[i], u[i])
    ensures forall i :: 0 <= i < |u| && i != FirstMatch(u, req.1, rule) ==> r[i] == u[i]
    ensures oracle(PointOf(req.0), PointOf(req.1)).None? ==> r == u
    ensures var j := FirstMatch(u, req.1, rule);
            oracle(PointOf(req.0), PointOf(req.1)).Some? && j != -1 ==>
              r[j] == WithLeg(u[j], oracle(PointOf(req.0), PointOf(req.1)).value)
  {
    match oracle(PointOf(req.0), PointOf(req.1))
    case None => u
    case Some(leg) =>
      var i := FirstMatch(u, req.1, rule);
      if i == -1 then u else u[i := WithLeg(u[i], leg)]
  }

  function ApplyLegs(u: seq<Location>, reqs: seq<(Location, Location)>, oracle: Oracle, rule: MatchRule): (r: seq<Location>)
    ensures |r| == |u|
    ensures forall i :: 0 <= i < |u| ==> SameExceptTravel(r[i], u[i])
  {
    if reqs == [] then u
    else ApplyLeg(ApplyLegs(u, reqs[..|reqs| - 1], oracle, rule), reqs[|reqs| - 1], oracle, rule)
  }

  /** What `calculateTravelTimes` resolves to: the input itself when it is
      empty or the maps library is not loaded, otherwise a copy with every
      answered leg written onto the location its destination matches. */
  function Annotated(s: seq<Location>, mapsLoaded: bool, cmp: Comparator, oracle: Oracle, rule: MatchRule): (r: seq<Location>)
    ensures |r| == |s|
    ensures forall i :: 0 <= i < |s| ==> SameExceptTravel(r[i], s[i])
  {
    if |s| == 0 || !mapsLoaded then s else ApplyLegs(s, Requests(s, cmp), oracle, rule)
  }

  // ---------------------------------------------------------------------
  // The procedure

  /** `days` and `byDay` hold the grouping of the first `i` stops. */
  ghost predicate GroupedSoFar(s: seq<Location>, i: nat, days: seq<string>, byDay: map<string, seq<Location>>)
    requires i <= |s|
  {
    && days == DaysOf(s[..i])
    && (forall d :: d in byDay <==> d in days)
    && (forall d :: d in byDay ==> byDay[d] == Group(s[..i], d))
    && (forall d :: d !in days ==> Group(s[..i], d) == [])
  }

  /** Pushing stop `i` onto its day's list, created if missing, groups one more stop. */
  lemma PushStop(s: seq<Location>, i: nat, days: seq<string>, byDay: map<string, seq<Location>>)
    requires i < |s| && GroupedSoFar(s, i, days, byDay)
    ensures var d := s[i].day;
      var days' := if d !in byDay then days + [d] else days;
      var b := if d !in byDay then byDay[d := []] else byDay;
      GroupedSoFar(s, i + 1, days', b[d := b[d] + [s[i]]])
  {
    GroupingStep(s, i);
  }

  /** The `forEach` that pushes every stop onto the list of its day, creating
      the list at the day's first stop. */
  method GroupByDay(s: seq<Location>) returns (days: seq<string>, byDay: map<string, seq<Location>>)
    ensures days == DaysOf(s)
    ensures forall d :: d in byDay <==> d in days
    ensures forall d :: d in byDay ==> byDay[d] == Group(s, d)
  {
    days, byDay := [], map[];
    for i := 0 to |s|
      invariant GroupedSoFar(s, i, days, byDay)
    {
      var location := s[i];
      PushStop(s, i, days, byDay);
      if location.day !in byDay {
        byDay := byDay[location.day := []];
        days := days + [location.day];
      }
      byDay := byDay[location.day := byDay[location.day] + [location]];
    }
    assert s[..|s|] == s;
  }

  /** The lists of the first `k` days are sorted, the others as grouped. */
  ghost predicate SortedSoFar(days: seq<string>, k: nat, byDay: map<string, seq<Location>>,
                              sorted: map<string, seq<Location>>, cmp: Comparator)
    requires k <= |days|
  {
    && (forall d :: d in byDay <==> d in days)
    && (forall d :: d in sorted <==> d in days)
    && (forall d :: d in sorted ==> sorted[d] == if d in days[..k] then SortByTime(byDay[d], cmp) else byDay[d])
  }

  /** Sorting the list of day `k` sorts one more day. */
  lemma SortStep(days: seq<string>, k: nat, byDay: map<string, seq<Location>>,
                 sorted: map<string, seq<Location>>, cmp: Comparator)
    requires Distinct(days) && k < |days| && SortedSoFar(days, k, byDay, sorted, cmp)
    ensures days[k] in sorted
    ensures SortedSoFar(days, k + 1, byDay, sorted[days[k] := SortByTime(sorted[days[k]], cmp)], cmp)
  {
    assert days[..k + 1] == days[..k] + [days[k]];
    assert days[k] !in days[..k];
  }

  /** The loop that sorts each day's list by time. */
  method SortEachDay(days: seq<string>, byDay: map<string, seq<Location>>, cmp: Comparator)
    returns (sorted: map<string, seq<Location>>)
    requires Distinct(days)
    requires forall d :: d in byDay <==> d in days
    ensures forall d :: d in sorted <==> d in days
    ensures forall d :: d in sorted ==> sorted[d] == SortByTime(byDay[d], cmp)
  {
    sorted := byDay;
    for k := 0 to |days|
      invariant SortedSoFar(days, k, byDay, sorted, cmp)
    {
      SortStep(days, k, byDay, sorted, cmp);
      sorted := sorted[days[k] := SortByTime(sorted[days[k]], cmp)];
    }
    assert days[..|days|] == days;
  }

  /** `updatedLocations.findIndex(...)` under the given matching rule. */
  method FindIndex(a: array<Location>, dest: Location, rule: MatchRule) returns (idx: int)
    ensures idx == FirstMatch(a[..], dest, rule)
  {
    for i := 0 to a.Length
      invariant forall k :: 0 <= k < i ==> !Matches(a[k], dest, rule)
    {
      if Matches(a[i], dest, rule) {
        return i;
      }
    }
    return -1;
  }

  /** One request: ask the service for the leg and, when it answers, write
      the leg onto the first location matching the destination. A rejected
      request or an element whose status is not OK is caught and skipped. */
  method RequestLeg(updated: array<Location>, origin: Location, destination: Location, oracle: Oracle, rule: MatchRule)
    modifies updated
    ensures updated[..] == ApplyLeg(old(updated[..]), (origin, destination), oracle, rule)
  {
    var reply := oracle(PointOf(origin), PointOf(destination));
    if reply.Some? {
      var idx := FindIndex(updated, destination, rule);
      if idx != -1 {
        updated[idx] := WithLeg(updated[idx], reply.value);
      }
    }
  }

  /** The inner loop over one day's sorted stops: one request per stop after
      the first. */
  method RequestDay(updated: array<Location>, g: seq<Location>, oracle: Oracle, rule: MatchRule) returns (pairs: seq<(Location, Location)>)
    requires g != []
    modifies updated
    ensures pairs == Pairs(g)
    ensures updated[..] == ApplyLegs(old(updated[..]), pairs, oracle, rule)
  {
    pairs := [];
    var i := 1;
    while i < |g|
      invariant 1 <= i <= |g|
      invariant pairs == Pairs(g[..i])
      invariant updated[..] == ApplyLegs(old(updated[..]), pairs, oracle, rule)
    {
      var origin, destination := g[i - 1], g[i];
      NextPair(g, i);
      ApplyOneMore(old(updated[..]), pairs, (origin, destination), oracle, rule);
      pairs := pairs + [(origin, destination)];
      RequestLeg(updated, origin, destination, oracle, rule);
      i := i + 1;
    }
    assert g[..i] == g;
  }

  /** The lists of the given days, in order. */
  function Lists(days: seq<string>, byDay: map<string, seq<Location>>): seq<seq<Location>>
    requires forall d :: d in days ==> d in byDay
  {
    seq(|days|, k requires 0 <= k < |days| => byDay[days[k]])
  }

  /** The outer loop over the days, in key order. */
  method RequestDays(updated: array<Location>, days: seq<string>, byDay: map<string, seq<Location>>, oracle: Oracle, rule: MatchRule)
    returns (asked: seq<(Location, Location)>)
    requires forall d :: d in days ==> d in byDay && byDay[d] != []
    modifies updated
    ensures asked == RequestsOf(Lists(days, byDay))
    ensures updated[..] == ApplyLegs(old(updated[..]), asked, oracle, rule)
  {
    ghost var groups := Lists(days, byDay);
    asked := [];
    for k := 0 to |days|
      invariant asked == RequestsOf(groups[..k])
      invariant updated[..] == ApplyLegs(old(updated[..]), asked, oracle, rule)
    {
      var pairs := RequestDay(updated, byDay[days[k]], oracle, rule);
      LegsCompose(old(updated[..]), asked, pairs, oracle, rule);
      assert groups[..k + 1][..k] == groups[..k];
      asked := asked + pairs;
    }
    assert groups[..|days|] == groups;
  }

  /** `calculateTravelTimes`: the annotated copy of the locations, and the
      requests made to the distance service, in order. The source looks
      destinations up with `AsWritten`. */
  method CalculateTravelTimes(locations: seq<Location>, mapsLoaded: bool, cmp: Comparator, oracle: Oracle, rule: MatchRule)
    returns (result: seq<Location>, asked: seq<(Location, Location)>)
    ensures result == Annotated(locations, mapsLoaded, cmp, oracle, rule)
    ensures asked == if |locations| == 0 || !mapsLoaded then [] else Requests(locations, cmp)
  {
    if |locations| == 0 || !mapsLoaded {
      return locations, [];
    }
    var updated := new Location[|locations|](i requires 0 <= i < |locations| => locations[i]);
    var days, byDay := GroupByDay(locations);
    DaysOfDistinct(locations);
    byDay := SortEachDay(days, byDay, cmp);
    ListedGroups(locations, cmp, days, byDay);
    assert updated[..] == locations;
    asked := RequestDays(updated, days, byDay, oracle, rule);
    result := updated[..];
  }

  /** The sorted lists, read in key order, are the sorted groups. */
  lemma ListedGroups(s: seq<Location>, cmp: Comparator, days: seq<string>, byDay: map<string, seq<Location>>)
    requires days == DaysOf(s)
    requires forall d :: d in byDay <==> d in days
    requires forall d :: d in byDay ==> byDay[d] == SortByTime(Group(s, d), cmp)
    ensures forall d :: d in days ==> d in byDay && byDay[d] != []
    ensures Lists(days, byDay) == SortedGroups(s, cmp)
  {
    var groups := SortedGroups(s, cmp);
    GroupsNonEmpty(s, cmp);
    forall d | d in days
      ensures byDay[d] != []
    {
      var k :| 0 <= k < |days| && days[k] == d;
      assert byDay[d] == groups[k];
    }
  }

  lemma NextPair(g: seq<Location>, i: nat)
    requires 1 <= i < |g|
    ensures Pairs(g[..i + 1]) == Pairs(g[..i]) + [(g[i - 1], g[i])]
  {
    assert g[..i + 1][..i] == g[..i];
  }

  lemma ApplyOneMore(u: seq<Location>, reqs: seq<(Location, Location)>, req: (Location, Location), oracle: Oracle, rule: MatchRule)
    ensures ApplyLegs(u, reqs + [req], oracle, rule) == ApplyLeg(ApplyLegs(u, reqs, oracle, rule), req, oracle, rule)
  {
    assert (reqs + [req])[..|reqs|] == reqs;
  }

  /** Applying two runs of requests is applying their concatenation. */
  lemma {:induction false} LegsCompose(u: seq<Location>, a: seq<(Location, Location)>, b: seq<(Location, Location)>, oracle: Oracle, rule: MatchRule)
    ensures ApplyLegs(u, a + b, oracle, rule) == ApplyLegs(ApplyLegs(u, a, oracle, rule), b, oracle, rule)
    decreases |b|
  {
    if b == [] {
      assert a + b == a;
    } else {
      var b', last := b[..|b| - 1], b[|b| - 1];
      var v := ApplyLegs(u, a, oracle, rule);
      assert a + b == (a + b') + [last];
      assert b == b' + [last];
      calc {
        ApplyLegs(u, a + b, oracle, rule);
        { ApplyOneMore(u, a + b', last, oracle, rule); }
        ApplyLeg(ApplyLegs(u, a + b', oracle, rule), last, oracle, rule);
        { LegsCompose(u, a, b', oracle, rule); }
        ApplyLeg(ApplyLegs(v, b', oracle, rule), last, oracle, rule);
        { ApplyOneMore(v, b', last, oracle, rule); }
        ApplyLegs(v, b, oracle, rule);
      }
    }
  }

  // ---------------------------------------------------------------------
  // Properties of the requests

  /** Every request goes between two stops of the input on the same day, the
      origin not after the destination when the comparator is total. */
  lemma RequestsPairStopsOfADay(s: seq<Location>, cmp: Comparator)
    ensures forall r :: r in Requests(s, cmp) ==>
      r.0 in s && r.1 in s && r.0.day == r.1.day && (Total(cmp) ==> cmp(r.0.time, r.1.time) <= 0)
  {
    var gs := SortedGroups(s, cmp);
    RequestsWithinGroups(gs);
    forall r | r in Requests(s, cmp)
      ensures r.0 in s && r.1 in s && r.0.day == r.1.day && (Total(cmp) ==> cmp(r.0.time, r.1.time) <= 0)
    {
      var k :| 0 <= k < |gs| && InGroup(r, gs[k]);
      var i :| 0 < i < |gs[k]| && r == (gs[k][i - 1], gs[k][i]);
      GroupStop(s, cmp, k, i - 1);
      GroupStop(s, cmp, k, i);
      if Total(cmp) {
        SortByTimeSorts(Group(s, DaysOf(s)[k]), cmp);
      }
    }
  }

  /** A stop of group `k` is an input stop of the `k`th day. */
  lemma GroupStop(s: seq<Location>, cmp: Comparator, k: nat, i: nat)
    requires k < |SortedGroups(s, cmp)| && i < |SortedGroups(s, cmp)[k]|
    ensures SortedGroups(s, cmp)[k][i] in s && SortedGroups(s, cmp)[k][i].day == DaysOf(s)[k]
  {
    var g := Group(s, DaysOf(s)[k]);
    var x := SortedGroups(s, cmp)[k][i];
    SortByTimePermutes(g, cmp);
    GroupMembers(s, DaysOf(s)[k]);
    assert x in multiset(SortByTime(g, cmp));
  }

  /** Each request of a list of groups is two consecutive stops of one group. */
  lemma {:induction false} RequestsWithinGroups(gs: seq<seq<Location>>)
    ensures forall r :: r in RequestsOf(gs) ==> exists k :: 0 <= k < |gs| && InGroup(r, gs[k])
  {
    if gs != [] {
      var init := gs[..|gs| - 1];
      var g := gs[|gs| - 1];
      RequestsWithinGroups(init);
      PairsAreConsecutive(g);
      forall r | r in RequestsOf(gs)
        ensures exists k :: 0 <= k < |gs| && InGroup(r, gs[k])
      {
        if r in RequestsOf(init) {
          var k :| 0 <= k < |init| && InGroup(r, init[k]);
          assert gs[k] == init[k];
        } else {
          var i :| 0 <= i < |Pairs(g)| && Pairs(g)[i] == r;
          assert r == (g[i + 1 - 1], g[i + 1]);
          assert InGroup(r, gs[|gs| - 1]);
        }
      }
    }
  }

  /** `r` joins two consecutive stops of `g`. */
  predicate InGroup(r: (Location, Location), g: seq<Location>)
  {
    exists i :: 0 < i < |g| && r == (g[i - 1], g[i])
  }

  /** One request per stop that is not the first of its day. */
  lemma RequestsCount(s: seq<Location>, cmp: Comparator)
    ensures |Requests(s, cmp)| == |s| - |DaysOf(s)|
  {
    var days := DaysOf(s);
    var gs := SortedGroups(s, cmp);
    GroupsNonEmpty(s, cmp);
    RequestsOfCount(gs);
    SortedGroupsSorted(s, cmp);
    forall k | 0 <= k < |gs|
      ensures |gs[k]| == |Group(s, days[k])|
    {
      assert |multiset(gs[k])| == |multiset(Group(s, days[k]))|;
    }
    StopsMatchSpread(gs, s, days);
    DaysOfDistinct(s);
    DaysOfMembers(s);
    SpreadCountsStops(s, days);
  }

  /** The number of stops in a list of groups. */
  function Stops(gs: seq<seq<Location>>): nat
  {
    if gs == [] then 0 else Stops(gs[..|gs| - 1]) + |gs[|gs| - 1]|
  }

  /** The number of stops on the given days. */
  function Spread(s: seq<Location>, days: seq<string>): nat
  {
    if days == [] then 0 else Spread(s, days[..|days| - 1]) + |Group(s, days[|days| - 1])|
  }

  lemma {:induction false} RequestsOfCount(gs: seq<seq<Location>>)
    requires forall k :: 0 <= k < |gs| ==> gs[k] != []
    ensures |RequestsOf(gs)| + |gs| == Stops(gs)
  {
    if gs != [] {
      RequestsOfCount(gs[..|gs| - 1]);
      PairsAreConsecutive(gs[|gs| - 1]);
    }
  }

  lemma {:induction false} StopsMatchSpread(gs: seq<seq<Location>>, s: seq<Location>, days: seq<string>)
    requires |gs| == |days|
    requires forall k :: 0 <= k < |gs| ==> |gs[k]| == |Group(s, days[k])|
    ensures Stops(gs) == Spread(s, days)
  {
    if gs != [] {
      StopsMatchSpread(gs[..|gs| - 1], s, days[..|days| - 1]);
    }
  }

  /** Appending a stop adds one to the count of its day, if listed. */
  lemma {:induction false} SpreadStep(s: seq<Location>, x: Location, days: seq<string>)
    requires Distinct(days)
    ensures Spread(s + [x], days) == Spread(s, days) + if x.day in days then 1 else 0
  {
    if days != [] {
      var init := days[..|days| - 1];
      SpreadStep(s, x, init);
      assert (s + [x])[..|s|] == s;
      assert days == init + [days[|days| - 1]];
    }
  }

  /** Distinct days covering every stop count every stop once. */
  lemma {:induction false} SpreadCountsStops(s: seq<Location>, days: seq<string>)
    requires Distinct(days)
    requires forall x :: x in s ==> x.day in days
    ensures Spread(s, days) == |s|
  {
    if s == [] {
      SpreadOfNothing(days);
    } else {
      var init := s[..|s| - 1];
      assert s == init + [s[|s| - 1]];
      SpreadCountsStops(init, days);
      SpreadStep(init, s[|s| - 1], days);
    }
  }

  lemma {:induction false} SpreadOfNothing(days: seq<string>)
    ensures Spread([], days) == 0
  {
    if days != [] {
      SpreadOfNothing(days[..|days| - 1]);
    }
  }

  /** A request the service rejects, or answers with a status other than OK,
      changes nothing, and the requests after it are still applied. */
  lemma UnansweredRequestIsSkipped(u: seq<Location>, a: seq<(Location, Location)>, req: (Location, Location),
                                   b: seq<(Location, Location)>, oracle: Oracle, rule: MatchRule)
    requires oracle(PointOf(req.0), PointOf(req.1)).None?
    ensures ApplyLegs(u, a + [req] + b, oracle, rule) == ApplyLegs(u, a + b, oracle, rule)
  {
    LegsCompose(u, a + [req], b, oracle, rule);
    ApplyOneMore(u, a, req, oracle, rule);
    LegsCompose(u, a, b, oracle, rule);
  }

  // ---------------------------------------------------------------------
  // Where the legs land

  /** Every stop has an id and no two stops share one, as for rows read from
      the database. */
  predicate DistinctIds(s: seq<Location>)
  {
    && (forall i :: 0 <= i < |s| ==> s[i].id.Some?)
    && (forall i, j :: 0 <= i < j < |s| ==> s[i].id != s[j].id)
  }

  /** Matching looks only at ids and coordinates, which annotating keeps. */
  lemma MatchIgnoresTravel(a: Location, b: Location, dest: Location, rule: MatchRule)
    requires SameExceptTravel(a, b)
    ensures Matches(a, dest, rule) == Matches(b, dest, rule)
  {
    var a', b' := a.(travelTimeFromPrevious := None, distanceFromPrevious := None),
                  b.(travelTimeFromPrevious := None, distanceFromPrevious := None);
    assert a.id == a'.id == b'.id == b.id;
    assert a.lat == a'.lat == b'.lat == b.lat;
    assert a.lng == a'.lng == b'.lng == b.lng;
  }

  /** A stop is only ever written to by a request whose destination it
      matches: one that matches no destination keeps its fields. */
  lemma {:induction false} OnlyMatchedStopsChange(s: seq<Location>, reqs: seq<(Location, Location)>, oracle: Oracle, rule: MatchRule, i: nat)
    requires i < |s|
    requires forall r :: r in reqs ==> !Matches(s[i], r.1, rule)
    ensures ApplyLegs(s, reqs, oracle, rule)[i] == s[i]
  {
    if reqs != [] {
      var init := reqs[..|reqs| - 1];
      var r := reqs[|reqs| - 1];
      assert forall q :: q in init ==> q in reqs;
      OnlyMatchedStopsChange(s, init, oracle, rule, i);
      var u := ApplyLegs(s, init, oracle, rule);
      MatchIgnoresTravel(u[i], s[i], r.1, rule);
    }
  }

  /** With distinct ids, `ById` finds the stop carrying the destination's id
      and no other. */
  lemma ByIdFindsTheStop(u: seq<Location>, dest: Location, j: nat)
    requires DistinctIds(u) && j < |u| && dest.id == u[j].id
    ensures FirstMatch(u, dest, ById) == j
  {
    assert Matches(u[j], dest, ById);
  }

  /** The source's rule finds the same stop when, besides the ids, the
      coordinates of the stops are distinct too. */
  lemma AsWrittenFindsTheStop(u: seq<Location>, dest: Location, j: nat)
    requires DistinctIds(u) && j < |u| && dest.id == u[j].id && PointOf(dest) == PointOf(u[j])
    requires forall i, k :: 0 <= i < k < |u| ==> PointOf(u[i]) != PointOf(u[k])
    ensures FirstMatch(u, dest, AsWritten) == j
  {
    assert Matches(u[j], dest, AsWritten);
  }

  /** An answered request under `ById` writes its leg onto its destination. */
  lemma LegLandsOnDestination(u: seq<Location>, origin: Location, j: nat, oracle: Oracle)
    requires DistinctIds(u) && j < |u| && oracle(PointOf(origin), PointOf(u[j])).Some?
    ensures ApplyLeg(u, (origin, u[j]), oracle, ById)
      == u[j := WithLeg(u[j], oracle(PointOf(origin), PointOf(u[j])).value)]
  {
    ByIdFindsTheStop(u, u[j], j);
  }

  /** Under `ById`, a stop that no request has as its destination keeps its
      travel fields: legs land only on their own destinations. */
  lemma UnaddressedStopKeepsFields(s: seq<Location>, mapsLoaded: bool, cmp: Comparator, oracle: Oracle, i: nat)
    requires DistinctIds(s) && i < |s|
    requires forall r :: r in Requests(s, cmp) ==> r.1 != s[i]
    ensures Annotated(s, mapsLoaded, cmp, oracle, ById)[i] == s[i]
  {
    RequestsPairStopsOfADay(s, cmp);
    forall r | r in Requests(s, cmp)
      ensures !Matches(s[i], r.1, ById)
    {
      var j :| 0 <= j < |s| && s[j] == r.1;
    }
    OnlyMatchedStopsChange(s, Requests(s, cmp), oracle, ById, i);
  }

  /** Under `ById`, with distinct ids, the first stop of each sorted day
      group is the destination of no request and keeps its travel fields. */
  lemma FirstOfDayKeepsFields(s: seq<Location>, mapsLoaded: bool, cmp: Comparator, oracle: Oracle, k: nat, i: nat)
    requires DistinctIds(s) && k < |SortedGroups(s, cmp)| && i < |s|
    requires SortedGroups(s, cmp)[k] != [] && s[i] == SortedGroups(s, cmp)[k][0]
    ensures Annotated(s, mapsLoaded, cmp, oracle, ById)[i] == s[i]
  {
    FirstOfDayIsNoDestination(s, cmp, k);
    UnaddressedStopKeepsFields(s, mapsLoaded, cmp, oracle, i);
  }

  lemma FirstOfDayIsNoDestination(s: seq<Location>, cmp: Comparator, k: nat)
    requires DistinctIds(s) && k < |SortedGroups(s, cmp)| && SortedGroups(s, cmp)[k] != []
    ensures forall r :: r in Requests(s, cmp) ==> r.1 != SortedGroups(s, cmp)[k][0]
  {
    var gs := SortedGroups(s, cmp);
    RequestsWithinGroups(gs);
    forall r | r in Requests(s, cmp)
      ensures r.1 != gs[k][0]
    {
      var k' :| 0 <= k' < |gs| && InGroup(r, gs[k']);
      var j :| 0 < j < |gs[k']| && r == (gs[k'][j - 1], gs[k'][j]);
      LaterStopIsNotFirst(s, cmp, k, k', j);
    }
  }

  /** A stop after the first of any group is not the first stop of group `k`. */
  lemma LaterStopIsNotFirst(s: seq<Location>, cmp: Comparator, k: nat, k': nat, j: nat)
    requires DistinctIds(s) && k < |SortedGroups(s, cmp)| && SortedGroups(s, cmp)[k] != []
    requires k' < |SortedGroups(s, cmp)| && 0 < j < |SortedGroups(s, cmp)[k']|
    ensures SortedGroups(s, cmp)[k'][j] != SortedGroups(s, cmp)[k][0]
  {
    var gs := SortedGroups(s, cmp);
    if k' == k {
      NoRepeatsInGroup(s, cmp, k);
      assert gs[k][1..][j - 1] == gs[k][j];
    } else {
      DaysOfDistinct(s);
      GroupOnItsDay(s, cmp, k, gs[k][0]);
      GroupOnItsDay(s, cmp, k', gs[k'][j]);
    }
  }

  /** A stop of group `k` is a stop of the `k`th day. */
  lemma GroupOnItsDay(s: seq<Location>, cmp: Comparator, k: nat, x: Location)
    requires k < |SortedGroups(s, cmp)| && x in SortedGroups(s, cmp)[k]
    ensures x.day == DaysOf(s)[k]
  {
    SortedGroupsSorted(s, cmp);
    GroupMembers(s, DaysOf(s)[k]);
    assert x in multiset(SortedGroups(s, cmp)[k]);
  }

  /** With distinct ids, no stop occurs twice in a sorted group. */
  lemma NoRepeatsInGroup(s: seq<Location>, cmp: Comparator, k: nat)
    requires DistinctIds(s) && k < |SortedGroups(s, cmp)| && SortedGroups(s, cmp)[k] != []
    ensures SortedGroups(s, cmp)[k][0] !in SortedGroups(s, cmp)[k][1..]
  {
    var g := SortedGroups(s, cmp)[k];
    var d := DaysOf(s)[k];
    SortedGroupsSorted(s, cmp);
    StopsOccurOnce(s);
    GroupWithin(s, d);
    assert g == [g[0]] + g[1..];
    assert multiset(g)[g[0]] <= multiset(s)[g[0]] <= 1;
    assert multiset(g[1..])[g[0]] == 0;
  }

  /** Distinct ids make every stop occur once. */
  lemma {:induction false} StopsOccurOnce(s: seq<Location>)
    requires DistinctIds(s)
    ensures forall x :: multiset(s)[x] <= 1
  {
    if s != [] {
      var init := s[..|s| - 1];
      var x := s[|s| - 1];
      assert s == init + [x];
      DistinctIdsPrefix(s, |s| - 1);
      StopsOccurOnce(init);
      forall j | 0 <= j < |init|
        ensures init[j] != x
      {
        assert init[j] == s[j];
      }
      assert x !in init;
      assert multiset(s) == multiset(init) + multiset{x};
    }
  }

  /** A prefix of stops with distinct ids has distinct ids. */
  lemma DistinctIdsPrefix(s: seq<Location>, n: nat)
    requires DistinctIds(s) && n <= |s|
    ensures DistinctIds(s[..n])
  {
    var p := s[..n];
    forall i | 0 <= i < n
      ensures p[i] == s[i]
    {
    }
  }

  /** A group takes each stop at most as often as the input has it. */
  lemma {:induction false} GroupWithin(s: seq<Location>, d: string)
    ensures multiset(Group(s, d)) <= multiset(s)
  {
    if s != [] {
      GroupWithin(s[..|s| - 1], d);
      assert s == s[..|s| - 1] + [s[|s| - 1]];
    }
  }

  // ---------------------------------------------------------------------
  // The same place on two days

  /** One stop on a first day, then two stops on a second day: the days
      and their groups. */
  lemma OneThenTwoDays(a: Location, b: Location, c: Location)
    requires a.day != b.day && b.day == c.day
    ensures DaysOf([a, b, c]) == [a.day, b.day]
    ensures Group([a, b, c], a.day) == [a] && Group([a, b, c], b.day) == [b, c]
  {
    TwoDays(a, b);
    assert [a, b, c][..2] == [a, b];
  }

  lemma TwoDays(a: Location, b: Location)
    requires a.day != b.day
    ensures DaysOf([a, b]) == [a.day, b.day]
    ensures Group([a, b], a.day) == [a] && Group([a, b], b.day) == [b]
  {
    OneDay(a, b.day);
    assert [a, b][..1] == [a];
  }

  lemma OneDay(a: Location, other: string)
    requires a.day != other
    ensures DaysOf([a]) == [a.day]
    ensures Group([a], a.day) == [a] && Group([a], other) == []
  {
    assert [a][..0] == [];
  }

  /** Two stops in time order stay in that order. */
  lemma SortedPair(b: Location, c: Location, cmp: Comparator)
    requires cmp(b.time, c.time) <= 0
    ensures SortByTime([b], cmp) == [b]
    ensures SortByTime([b, c], cmp) == [b, c]
  {
    assert [b][..0] == [];
    assert [b, c][..1] == [b];
    assert [b][1..] == [];
  }

  lemma SortedSingle(a: Location, cmp: Comparator)
    ensures SortByTime([a], cmp) == [a]
  {
    assert [a][..0] == [];
  }

  /** The same trip's sorted groups and its one request. */
  lemma OneThenTwoGroups(a: Location, b: Location, c: Location, cmp: Comparator)
    requires a.day != b.day && b.day == c.day && cmp(b.time, c.time) <= 0
    ensures SortedGroups([a, b, c], cmp) == [[a], [b, c]]
    ensures Requests([a, b, c], cmp) == [(b, c)]
  {
    OneThenTwoDays(a, b, c);
    SortedSingle(a, cmp);
    SortedPair(b, c, cmp);
    var gs := SortedGroups([a, b, c], cmp);
    assert gs == [[a], [b, c]];
    assert gs[..1] == [[a]] && gs[..1][..0] == [];
    assert [b, c][..1] == [b];
    assert Pairs([a]) == [] && Pairs([b, c]) == [(b, c)];
    assert RequestsOf(gs[..1]) == [];
    assert RequestsOf(gs) == [(b, c)];
  }

  /** Under the source's rule, when a later day ends at the coordinates of an
      earlier day's first stop, the leg into it is written onto that earlier
      stop and the day's own last stop stays blank. */
  lemma RevisitMisrouted(a: Location, b: Location, c: Location, cmp: Comparator, oracle: Oracle, leg: Leg)
    requires a.day != b.day && b.day == c.day && cmp(b.time, c.time) <= 0
    requires PointOf(a) == PointOf(c) && oracle(PointOf(b), PointOf(c)) == Some(leg)
    ensures Annotated([a, b, c], true, cmp, oracle, AsWritten) == [WithLeg(a, leg), b, c]
  {
    var s := [a, b, c];
    OneThenTwoGroups(a, b, c, cmp);
    var reqs := [(b, c)];
    assert reqs[..0] == [];
    assert Requests(s, cmp) == reqs;
    assert ApplyLegs(s, reqs[..0], oracle, AsWritten) == s;
    assert ApplyLegs(s, reqs, oracle, AsWritten) == ApplyLeg(s, (b, c), oracle, AsWritten);
    assert Annotated(s, true, cmp, oracle, AsWritten) == ApplyLegs(s, reqs, oracle, AsWritten);
    assert Matches(a, c, AsWritten);
    assert FirstMatch(s, c, AsWritten) == 0;
    assert s[0 := WithLeg(a, leg)] == [WithLeg(a, leg), b, c];
  }

  /** Under `ById` the same trip gets the leg on the later day's stop. */
  lemma RevisitById(a: Location, b: Location, c: Location, cmp: Comparator, oracle: Oracle, leg: Leg)
    requires DistinctIds([a, b, c])
    requires a.day != b.day && b.day == c.day && cmp(b.time, c.time) <= 0
    requires oracle(PointOf(b), PointOf(c)) == Some(leg)
    ensures Annotated([a, b, c], true, cmp, oracle, ById) == [a, b, WithLeg(c, leg)]
  {
    var s := [a, b, c];
    OneThenTwoGroups(a, b, c, cmp);
    var reqs := [(b, c)];
    assert reqs[..0] == [];
    assert Requests(s, cmp) == reqs;
    assert ApplyLegs(s, reqs[..0], oracle, ById) == s;
    assert ApplyLegs(s, reqs, oracle, ById) == ApplyLeg(s, (b, s[2]), oracle, ById);
    assert Annotated(s, true, cmp, oracle, ById) == ApplyLegs(s, reqs, oracle, ById);
    LegLandsOnDestination(s, b, 2, oracle);
    assert s[2 := WithLeg(c, leg)] == [a, b, WithLeg(c, leg)];
  }

  function Stop(id: int, lat: real, lng: real, day: string): Location
  {
    Location(Some(id), "Hotel", lat, lng, day, "09:00", "", None, None, None, None)
  }

  /** A trip that starts day 1 at the hotel, and on day 2 drives from a beach
      back to the same hotel. */
  function HotelTwice(): seq<Location>
  {
    [Stop(1, 39.57, 2.65, "day1"), Stop(2, 39.7, 2.9, "day2"), Stop(3, 39.57, 2.65, "day2")]
  }

  const HotelLeg := Leg("25 mins", "21.4 km")

  /** A comparator that ranks all times alike, and a service that answers
      every request with the same leg. */
  function AllAlike(a: string, b: string): int { 0 }

  function AlwaysHotelLeg(p: Point, q: Point): Option<Leg> { Some(HotelLeg) }

  /** Under the source's rule, the leg into the day 2 hotel stop is written
      onto the day 1 hotel stop, which is the destination of no request,
      while the day 2 stop it belongs to stays blank. */
  lemma MisroutedLeg()
    ensures DistinctIds(HotelTwice())
    ensures Requests(HotelTwice(), AllAlike) == [(HotelTwice()[1], HotelTwice()[2])]
    ensures Annotated(HotelTwice(), true, AllAlike, AlwaysHotelLeg, AsWritten)
      == HotelTwice()[0 := WithLeg(HotelTwice()[0], HotelLeg)]
  {
    var s := HotelTwice();
    HotelTwiceShape();
    OneThenTwoGroups(s[0], s[1], s[2], AllAlike);
    RevisitMisrouted(s[0], s[1], s[2], AllAlike, AlwaysHotelLeg, HotelLeg);
    assert s[0 := WithLeg(s[0], HotelLeg)] == [WithLeg(s[0], HotelLeg), s[1], s[2]];
  }

  /** Under `ById` the same trip gets the leg on the day 2 hotel stop. */
  lemma RoutedById()
    ensures Annotated(HotelTwice(), true, AllAlike, AlwaysHotelLeg, ById)
      == HotelTwice()[2 := WithLeg(HotelTwice()[2], HotelLeg)]
  {
    var s := HotelTwice();
    HotelTwiceShape();
    RevisitById(s[0], s[1], s[2], AllAlike, AlwaysHotelLeg, HotelLeg);
    assert s[2 := WithLeg(s[2], HotelLeg)] == [s[0], s[1], WithLeg(s[2], HotelLeg)];
  }

  /** The trip's stops: distinct ids, the hotel on day 1 and again at the end of day 2. */
  lemma HotelTwiceShape()
    ensures var s := HotelTwice();
      && s == [s[0], s[1], s[2]] && DistinctIds(s)
      && s[0].day != s[1].day && s[1].day == s[2].day && PointOf(s[0]) == PointOf(s[2])
  {
    assert "day1" != "day2" by {
      assert "day1"[3] != "day2"[3];
    }
  }
}
