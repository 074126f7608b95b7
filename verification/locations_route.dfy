/** The `/api/locations` route handlers (app/api/locations/route.ts): `GET`
    lists the table, `POST` validates a request body and inserts it.

    The database is `Option<Persistence.Table>` (`None` before `CREATE
    TABLE` has run); failures of the database connection are boolean
    parameters. A body that does not parse as JSON, or parses to `null`, is
    `None`: reading it throws. */
module LocationsRoute {
  import opened Wrappers
  import opened LocationModel
  import Text
  import Persistence

  /** A text member of the request body as JavaScript sees it: absent, a
      string, or some other JSON value, which is truthy or not. */
  datatype Member = Absent | Str(s: string) | NonString(truthy: bool)

  /** The result of `parseFloat`: not a number, a finite number, or an infinity. */
  datatype Float = NaN | Finite(value: real) | Infinite(positive: bool)

  /** A coordinate member: absent (`undefined`), or present, in which case
      only what `parseFloat` makes of it matters. */
  datatype Coordinate = Undefined | Defined(parsed: Float)

  datatype Body = Body(name: Member, lat: Coordinate, lng: Coordinate, day: Member, time: Member, description: Member)

  /** The JSON envelope and HTTP status a handler answers with. */
  datatype Reply =
    | Listed(data: seq<Location>, count: int)
    | Created(row: Location)
    | Failure(status: int, error: string)

  const MissingFields := "Missing required fields"
  const InvalidDay := "Invalid day value"
  const NotNumbers := "Coordinates must be valid numbers"
  const InvalidCoordinates := "Invalid coordinate values"
  const CreateFailed := "Failed to create location"
  const FetchFailed := "Failed to fetch locations"

  function Status(r: Reply): int
  {
    match r
    case Listed(_, _) => 200
    case Created(_) => 201
    case Failure(status, _) => status
  }

  /** JavaScript truthiness of a member: an absent member and the empty string are falsy. */
  predicate Truthy(m: Member)
  {
    match m
    case Absent => false
    case Str(s) => s != ""
    case NonString(t) => t
  }

  /** `latNum < -90 || latNum > 90 || lngNum < -180 || lngNum > 180`: an
      infinity is always outside, NaN is never compared here. */
  predicate OutOfRange(lat: Float, lng: Float)
  {
    (lat.Infinite? || lng.Infinite?)
    || (lat.Finite? && lng.Finite? && !InRange(lat.value, lng.value))
  }

  /** The four guards of `POST`, in the order the handler tests them, each
      with the message it answers when it is the first to fail. */
  function Guards(b: Body): seq<(bool, string)>
  {
    [ (!Truthy(b.name) || b.lat.Undefined? || b.lng.Undefined? || !Truthy(b.day) || !Truthy(b.time) || !Truthy(b.description),
       MissingFields),
      (!(b.day.Str? && IsDayTag(b.day.s)), InvalidDay),
      (b.lat.Defined? && b.lng.Defined? && (b.lat.parsed.NaN? || b.lng.parsed.NaN?), NotNumbers),
      (b.lat.Defined? && b.lng.Defined? && OutOfRange(b.lat.parsed, b.lng.parsed), InvalidCoordinates) ]
  }

  /** The message of the first guard in `gs` that fails, if any. */
  function FirstFailure(gs: seq<(bool, string)>): Option<string>
  {
    if gs == [] then None else if gs[0].0 then Some(gs[0].1) else FirstFailure(gs[1..])
  }

  lemma GuardsInOrder(b: Body)
    ensures FirstFailure(Guards(b)) ==
            if Guards(b)[0].0 then Some(MissingFields)
            else if Guards(b)[1].0 then Some(InvalidDay)
            else if Guards(b)[2].0 then Some(NotNumbers)
            else if Guards(b)[3].0 then Some(InvalidCoordinates)
            else None
  {
    var gs := Guards(b);
    var g1, g2, g3 := gs[1..], gs[2..], gs[3..];
    assert g1[0] == gs[1] && g1[1..] == g2;
    assert g2[0] == gs[2] && g2[1..] == g3;
    assert g3[0] == gs[3] && g3[1..] == [];
    assert FirstFailure(g3) == if gs[3].0 then Some(InvalidCoordinates) else None;
    assert FirstFailure(g2) == if gs[2].0 then Some(NotNumbers) else FirstFailure(g3);
    assert FirstFailure(g1) == if gs[1].0 then Some(InvalidDay) else FirstFailure(g2);
  }

  /** What `POST` does with a parsed body before touching the database. */
  datatype Verdict = Reject(message: string) | Throws | Insert(location: NewLocation)

  /** The validation chain of `POST`: the first failing guard alone decides
      the 400 message. A body that passes every guard has a day tag, two
      in-range coordinates and truthy text members; its text members are
      trimmed only now, so a member that is not a string throws here, and
      a whitespace-only one is accepted and becomes "". */
  function Validate(b: Body): (r: Verdict)
    ensures r.Reject? <==> FirstFailure(Guards(b)).Some?
    ensures r.Reject? ==> r.message == FirstFailure(Guards(b)).value
    ensures r.Throws? <==> FirstFailure(Guards(b)).None? && !(b.name.Str? && b.time.Str? && b.description.Str?)
    ensures r.Insert? ==>
              && b.name.Str? && b.time.Str? && b.description.Str? && b.day.Str?
              && b.lat.Defined? && b.lat.parsed.Finite? && b.lng.Defined? && b.lng.parsed.Finite?
              && r.location == NewLocation(Text.Trim(b.name.s), b.lat.parsed.value, b.lng.parsed.value,
                                           b.day.s, Text.Trim(b.time.s), Text.Trim(b.description.s))
              && IsDayTag(r.location.day) && InRange(r.location.lat, r.location.lng)
  {
    GuardsInOrder(b);
    if !Truthy(b.name) || b.lat.Undefined? || b.lng.Undefined? || !Truthy(b.day) || !Truthy(b.time) || !Truthy(b.description) then
      Reject(MissingFields)
    else if !(b.day.Str? && IsDayTag(b.day.s)) then
      Reject(InvalidDay)
    else if b.lat.parsed.NaN? || b.lng.parsed.NaN? then
      Reject(NotNumbers)
    else if OutOfRange(b.lat.parsed, b.lng.parsed) then
      Reject(InvalidCoordinates)
    else if !(b.name.Str? && b.time.Str? && b.description.Str?) then
      Throws
    else
      Insert(NewLocation(Text.Trim(b.name.s), b.lat.parsed.value, b.lng.parsed.value,
                         b.day.s, Text.Trim(b.time.s), Text.Trim(b.description.s)))
  }

  /** `POST /api/locations`: 400 with the first failing guard's message and
      the database untouched; 201 with the inserted row; 500 "Failed to
      create location" when reading the body, trimming or the insert throws
      (`dbFails` is a failing connection). An INSERT the table rejects has
      still used up an id. */
  function Post(db: Option<Persistence.Table>, body: Option<Body>, ts: int, dbFails: bool): (r: (Option<Persistence.Table>, Reply))
    ensures Status(r.1) == 400 <==> body.Some? && Validate(body.value).Reject?
    ensures Status(r.1) == 400 ==> r.0 == db && r.1 == Failure(400, Validate(body.value).message)
    ensures Status(r.1) in {201, 400, 500}
    ensures Status(r.1) == 500 ==> r.1 == Failure(500, CreateFailed)
    ensures var reached := body.Some? && Validate(body.value).Insert? && db.Some? && !dbFails;
            && (r.1.Created? <==> reached && Persistence.Create(db.value, Validate(body.value).location, ts).1.Some?)
            && (reached ==> r.0 == Some(Persistence.Create(db.value, Validate(body.value).location, ts).0))
            && (!reached ==> r.0 == db)
    ensures r.1.Created? ==> r.1.row == Persistence.Create(db.value, Validate(body.value).location, ts).1.value
  {
    if body.None? then (db, Failure(500, CreateFailed)) else Respond(db, Validate(body.value), ts, dbFails)
  }

  /** What `POST` answers once the body has been read and judged: the
      rejection's 400, the 500 of a throw or a failed connection, or the
      outcome of the INSERT. */
  function Respond(db: Option<Persistence.Table>, v: Verdict, ts: int, dbFails: bool): (r: (Option<Persistence.Table>, Reply))
    ensures Status(r.1) == 400 <==> v.Reject?
    ensures v.Reject? ==> r.0 == db && r.1 == Failure(400, v.message)
    ensures Status(r.1) in {201, 400, 500}
    ensures Status(r.1) == 500 ==> r.1 == Failure(500, CreateFailed)
    ensures var reached := v.Insert? && db.Some? && !dbFails;
            && (r.1.Created? <==> reached && Persistence.Create(db.value, v.location, ts).1.Some?)
            && (reached ==> r.0 == Some(Persistence.Create(db.value, v.location, ts).0))
            && (!reached ==> r.0 == db)
    ensures r.1.Created? ==> r.1.row == Persistence.Create(db.value, v.location, ts).1.value
  {
    match v
    case Reject(message) => (db, Failure(400, message))
    case Throws => (db, Failure(500, CreateFailed))
    case Insert(n) =>
      if db.None? || dbFails then (db, Failure(500, CreateFailed))
      else
        var c := Persistence.Create(db.value, n, ts);
        match c.1
        case None => (Some(c.0), Failure(500, CreateFailed))
        case Some(row) => (Some(c.0), Created(row))
  }

  /** Validated coordinates always fit their DECIMAL columns, so an insert
      reached through `POST` fails only on a text value wider than its column. */
  lemma RouteInsertFailsOnlyOnWidth(db: Persistence.Table, b: Body, ts: int)
    requires Validate(b).Insert?
    ensures var n := Validate(b).location;
            Persistence.Create(db, n, ts).1.None? <==> !FitsColumns(n.name, n.day, n.time)
  {
    var n := Validate(b).location;
    assert InRange(n.lat, n.lng);
    assert Persistence.FitsDecimals(n.lat, n.lng);
  }

  /** `GET /api/locations`: initialize (its failure is reported, not thrown,
      so it is ignored here), then list every row in list order with
      `count` equal to the number of rows listed; 500 "Failed to fetch
      locations" when the query fails or the table still does not exist. */
  function Get(db: Option<Persistence.Table>, initFailsAt: Option<nat>, queryFails: bool, ts: int): (r: (Option<Persistence.Table>, Reply))
    requires db.None? || Persistence.WellFormed(db.value)
    ensures r.0 == Persistence.Initialize(db, initFailsAt, ts).0
    ensures r.1.Listed? <==> r.0.Some? && !queryFails
    ensures r.1.Listed? ==> r.1.count == |r.1.data| && Persistence.ListsInOrder(r.0.value.rows, r.1.data)
    ensures !r.1.Listed? ==> r.1 == Failure(500, FetchFailed)
  {
    var db' := Persistence.Initialize(db, initFailsAt, ts).0;
    Persistence.InitializeKeepsWellFormed(db, initFailsAt, ts);
    if db'.None? || queryFails then (db', Failure(500, FetchFailed))
    else
      var rows := Persistence.ListAll(db'.value.rows);
      (db', Listed(rows, |rows|))
  }

  /** On a fresh database whose initialization fails at the COUNT, `GET`
      still answers 200 with an empty list: the table was created. */
  lemma EmptyListAfterCountFails(ts: int)
    ensures Get(None, Some(1), false, ts).1 == Listed([], 0)
  {
    Persistence.CountFailureLeavesEmptyTable(ts);
    var rows := Persistence.ListAll(Persistence.EmptyTable.rows);
    assert Persistence.ListsInOrder(map[], rows);
    assert rows == [];
  }

  /** A body whose members are all strings and whose coordinates parse to finite numbers. */
  function StringBody(name: string, lat: real, lng: real, day: string, time: string, description: string): Body
  {
    Body(Str(name), Defined(Finite(lat)), Defined(Finite(lng)), Str(day), Str(time), Str(description))
  }

  /** A falsy or absent member is reported as missing whatever else is wrong
      with the body; a latitude or longitude of 0 is present, not missing. */
  lemma MissingDecidesFirst(b: Body)
    ensures (!Truthy(b.name) || !Truthy(b.day) || !Truthy(b.time) || !Truthy(b.description)
             || b.lat.Undefined? || b.lng.Undefined?) <==> Validate(b) == Reject(MissingFields)
    ensures b.lat == Defined(Finite(0.0)) && b.lng == Defined(Finite(0.0))
            && Truthy(b.name) && Truthy(b.day) && Truthy(b.time) && Truthy(b.description)
            ==> Validate(b) != Reject(MissingFields)
  {
  }

  /** `day` must be one of the five tags exactly: any other truthy day, in
      a body with nothing missing, is "Invalid day value". */
  lemma DayMustBeTag(b: Body)
    requires Truthy(b.name) && Truthy(b.time) && Truthy(b.description) && b.lat.Defined? && b.lng.Defined?
    ensures Truthy(b.day) && !(b.day.Str? && IsDayTag(b.day.s)) <==> Validate(b) == Reject(InvalidDay)
  {
  }

  /** For finite coordinates of an otherwise valid body the range check is
      inclusive at both ends: the body is inserted exactly when both
      coordinates are in range, and otherwise rejected as invalid. */
  lemma RangeIsInclusive(name: string, lat: real, lng: real, day: string, time: string, description: string)
    requires name != "" && time != "" && description != "" && IsDayTag(day)
    ensures var v := Validate(StringBody(name, lat, lng, day, time, description));
            && (v.Insert? <==> -90.0 <= lat <= 90.0 && -180.0 <= lng <= 180.0)
            && (!v.Insert? ==> v == Reject(InvalidCoordinates))
  {
  }

  /** An infinite coordinate passes the NaN check but never the range check. */
  lemma InfinityIsOutOfRange(b: Body)
    requires Truthy(b.name) && Truthy(b.time) && Truthy(b.description) && b.day.Str? && IsDayTag(b.day.s)
    requires b.lat == Defined(Infinite(true)) && b.lng.Defined? && !b.lng.parsed.NaN?
    ensures Validate(b) == Reject(InvalidCoordinates)
  {
  }

  /** Trimming comes after the emptiness check: a name, time or description
      made only of whitespace passes validation and is stored as "". */
  lemma WhitespaceOnlyStoredEmpty(name: string, lat: real, lng: real, day: string, time: string, description: string)
    requires name != "" && Text.AllWhitespace(name)
    requires time != "" && description != "" && IsDayTag(day) && InRange(lat, lng)
    ensures var v := Validate(StringBody(name, lat, lng, day, time, description));
            v.Insert? && v.location.name == ""
  {
    assert Text.Trim(name) == [];
  }

  /** A truthy member that is not a string passes every guard and then
      makes `trim` throw: the client gets 500, and nothing is inserted. */
  lemma NonStringNameFails(db: Option<Persistence.Table>, b: Body, ts: int, dbFails: bool)
    requires b.name == NonString(true) && b.time.Str? && b.time.s != "" && b.description.Str? && b.description.s != ""
    requires b.day.Str? && IsDayTag(b.day.s)
    requires b.lat.Defined? && b.lat.parsed.Finite? && b.lng.Defined? && b.lng.parsed.Finite?
    requires InRange(b.lat.parsed.value, b.lng.parsed.value)
    ensures Post(db, Some(b), ts, dbFails) == (db, Failure(500, CreateFailed))
  {
  }

  /** A created row carries the trimmed text, the parsed coordinates, a
      fresh id and equal creation and update times. */
  lemma CreatedRowIsTrimmedInput(db: Option<Persistence.Table>, b: Body, ts: int)
    requires db.Some? && Persistence.WellFormed(db.value)
    requires Post(db, Some(b), ts, false).1.Created?
    ensures var row := Post(db, Some(b), ts, false).1.row;
            && b.name.Str? && b.time.Str? && b.description.Str? && b.day.Str?
            && row.name == Text.Trim(b.name.s) && row.time == Text.Trim(b.time.s)
            && row.description == Text.Trim(b.description.s) && row.day == b.day.s
            && row.id == Some(db.value.nextId) && row.id.value !in db.value.rows
            && row.createdAt == row.updatedAt == Some(ts)
  {
    var v := Validate(b);
    assert v.Insert?;
    var n := v.location;
    var c := Persistence.Create(db.value, n, ts);
    assert Post(db, Some(b), ts, false).1.row == c.1.value;
    TrimmedKeptWhole(b.name.s, NameWidth);
    TrimmedKeptWhole(b.time.s, TimeWidth);
    DayTagFits(n.day);
    assert Persistence.AsStored(n) == n;
    assert c.1.value == Persistence.RowOf(db.value.nextId, n, ts);
  }

  /** A trimmed value does not end in a space, so its column keeps it whole or refuses it. */
  lemma TrimmedKeptWhole(s: string, width: nat)
    ensures KeptText(Text.Trim(s), width) == Text.Trim(s)
  {
    var r := Text.Trim(s);
    assert r == [] || !Text.IsWhitespace(r[|r| - 1]);
    assert Text.IsWhitespace(' ');
    StoredWhole(r, width);
  }
}
