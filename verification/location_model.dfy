/** The `Location` record shared by the database layer, the REST routes and
    the map helpers. Optional fields of the TypeScript interface (`id?`,
    `created_at?`, `travelTimeFromPrevious?`, ...) are `Option`s; numbers that
    are coordinates are `real`, timestamps are integers (milliseconds). */
module LocationModel {
  import opened Wrappers

  datatype Location = Location(
    id: Option<int>,
    name: string,
    lat: real,
    lng: real,
    day: string,
    time: string,
    description: string,
    createdAt: Option<int>,
    updatedAt: Option<int>,
    travelTimeFromPrevious: Option<string>,
    distanceFromPrevious: Option<string>)

  /** The fields a row is created from: a location without its id and
      timestamps. */
  datatype NewLocation = NewLocation(name: string, lat: real, lng: real, day: string, time: string, description: string)

  /** The widths of the `VARCHAR` columns of the `locations` table. */
  const NameWidth := 255
  const DayWidth := 10
  const TimeWidth := 50

  /** What a `VARCHAR(width)` column keeps of `s`: the value itself when it
      fits; with a space past the width, PostgreSQL drops it and looks again;
      with any other character there, nothing is kept and the statement
      writing it fails. */
  function StoredText(s: string, width: nat): Option<string>
    decreases |s|
  {
    if |s| <= width then Some(s)
    else if s[|s| - 1] == ' ' then StoredText(s[..|s| - 1], width)
    else None
  }

  /** Every character of `s` from index `k` on is a space. */
  predicate SpacesFrom(s: string, k: nat)
  {
    forall i | k <= i < |s| :: s[i] == ' '
  }

  /** A value is kept exactly when only spaces lie past the width, and what
      is kept is the value cut to the width. */
  lemma {:induction false} StoredTextMeaning(s: string, width: nat)
    ensures StoredText(s, width).Some? <==> SpacesFrom(s, width)
    ensures StoredText(s, width).Some? ==>
              StoredText(s, width).value == s[..if |s| <= width then |s| else width]
    decreases |s|
  {
    if |s| > width {
      var t := s[..|s| - 1];
      if s[|s| - 1] == ' ' {
        StoredTextMeaning(t, width);
        if SpacesFrom(t, width) {
          forall i | width <= i < |s|
            ensures s[i] == ' '
          {
            if i < |t| {
              assert s[i] == t[i];
            }
          }
          assert t[..if |t| <= width then |t| else width] == s[..width];
        } else {
          var i :| width <= i < |t| && t[i] != ' ';
          assert s[i] == t[i];
        }
      } else {
        assert width <= |s| - 1 < |s|;
      }
    }
  }

  /** A value that does not end in a space is kept whole or refused: never cut. */
  lemma StoredWhole(s: string, width: nat)
    requires s == [] || s[|s| - 1] != ' '
    ensures StoredText(s, width).Some? ==> StoredText(s, width) == Some(s)
  {
  }

  /** The text a column keeps of `s`; `s` itself when the column refuses it,
      since the statement then fails and nothing is kept. */
  function KeptText(s: string, width: nat): string
  {
    var k := StoredText(s, width); if k.Some? then k.value else s
  }

  /** Every text value fits its column whole. */
  predicate WithinWidths(name: string, day: string, time: string)
  {
    |name| <= NameWidth && |day| <= DayWidth && |time| <= TimeWidth
  }

  /** Every text value is kept by its column, possibly cut. */
  predicate FitsColumns(name: string, day: string, time: string)
  {
    StoredText(name, NameWidth).Some? && StoredText(day, DayWidth).Some? && StoredText(time, TimeWidth).Some?
  }

  /** The five itinerary days, in their natural order. */
  const DayTags: seq<string> := ["day1", "day2", "day3", "day4", "day5"]

  predicate IsDayTag(day: string)
  {
    day in DayTags
  }

  /** A day tag fits the `day` column whole. */
  lemma DayTagFits(day: string)
    requires IsDayTag(day)
    ensures |day| <= DayWidth && StoredText(day, DayWidth) == Some(day)
  {
  }

  /** The inclusive coordinate ranges every stored location should satisfy. */
  predicate InRange(lat: real, lng: real)
  {
    -90.0 <= lat <= 90.0 && -180.0 <= lng <= 180.0
  }

  /** A JavaScript string value is truthy exactly when it is present and non-empty. */
  predicate Truthy(s: Option<string>)
  {
    s.Some? && s.value != ""
  }

  /** Equal except possibly in the two travel fields the map helpers add. */
  predicate SameExceptTravel(a: Location, b: Location)
  {
    a.(travelTimeFromPrevious := None, distanceFromPrevious := None)
      == b.(travelTimeFromPrevious := None, distanceFromPrevious := None)
  }
}
