/** The persistence layer over the `locations` table (lib/db.ts).

    The SQL engine is not modelled as such: the table is a map from primary
    key to row plus the SERIAL counter, each statement the module sends is
    the function that gives its effect on that map, and `CURRENT_TIMESTAMP`
    is the `ts` argument. A table that `CREATE TABLE IF NOT EXISTS` has not
    yet created is `None`. */
module Persistence {
  import opened Wrappers
  import opened LocationModel
  import opened SeedData

  datatype Table = Table(rows: map<int, Location>, nextId: int)

  /** Every row carries its key as `id`, and the SERIAL counter is past every key. */
  predicate WellFormed(t: Table)
  {
    1 <= t.nextId && forall k :: k in t.rows ==> t.rows[k].id == Some(k) && k < t.nextId
  }

  /** A freshly created table; SERIAL starts at 1. */
  const EmptyTable: Table := Table(map[], 1)

  /** The row `INSERT ... RETURNING *` produces. */
  function RowOf(id: int, n: NewLocation, ts: int): Location
  {
    Location(Some(id), n.name, n.lat, n.lng, n.day, n.time, n.description, Some(ts), Some(ts), None, None)
  }

  /** `createLocation(location)`: the new row gets the next SERIAL value,
      which no existing row has, and equal creation and update timestamps. */
  function Insert(t: Table, n: NewLocation, ts: int): (r: (Table, Location))
    ensures r.0.rows == t.rows[t.nextId := r.1] && r.0.nextId == t.nextId + 1
    ensures r.1.id == Some(t.nextId) && r.1.createdAt == r.1.updatedAt == Some(ts)
    ensures r.1.name == n.name && r.1.lat == n.lat && r.1.lng == n.lng
    ensures r.1.day == n.day && r.1.time == n.time && r.1.description == n.description
    ensures WellFormed(t) ==> t.nextId !in t.rows && WellFormed(r.0)
  {
    var row := RowOf(t.nextId, n, ts);
    (Table(t.rows[t.nextId := row], t.nextId + 1), row)
  }

  /** A latitude fits its `DECIMAL(10, 8)` column: at most two digits before the point. */
  predicate LatFits(lat: real)
  {
    -100.0 < lat < 100.0
  }

  /** A longitude fits its `DECIMAL(11, 8)` column: at most three digits before the point. */
  predicate LngFits(lng: real)
  {
    -1000.0 < lng < 1000.0
  }

  predicate FitsDecimals(lat: real, lng: real)
  {
    LatFits(lat) && LngFits(lng)
  }

  /** The location as its columns keep it: each text value cut as its
      `VARCHAR` column cuts it. */
  function AsStored(n: NewLocation): NewLocation
  {
    n.(name := KeptText(n.name, NameWidth), day := KeptText(n.day, DayWidth), time := KeptText(n.time, TimeWidth))
  }

  /** `createLocation(location)`: the INSERT fails when a text value has a
      non-space past its column's width or a coordinate has too many integer
      digits, and otherwise adds the row `Insert` describes for the values as
      stored. The SERIAL default is drawn before the row is checked, so a
      failed INSERT still uses up the next id. */
  function Create(t: Table, n: NewLocation, ts: int): (r: (Table, Option<Location>))
    ensures r.1.None? <==> !(FitsColumns(n.name, n.day, n.time) && FitsDecimals(n.lat, n.lng))
    ensures r.1.Some? ==> (r.0, r.1.value) == Insert(t, AsStored(n), ts)
    ensures r.1.None? ==> r.0.rows == t.rows && r.0.nextId == t.nextId + 1
    ensures WellFormed(t) ==> WellFormed(r.0)
  {
    if FitsColumns(n.name, n.day, n.time) && FitsDecimals(n.lat, n.lng) then
      var ins := Insert(t, AsStored(n), ts);
      (ins.0, Some(ins.1))
    else (Table(t.rows, t.nextId + 1), None)
  }

  /** A created row keeps each text value up to its column's width, and
      what it drops is only trailing spaces; a value within the width is
      kept whole. */
  lemma CreateDropsOnlySpaces(t: Table, n: NewLocation, ts: int)
    requires Create(t, n, ts).1.Some?
    ensures var row := Create(t, n, ts).1.value;
            && |row.name| <= NameWidth && row.name == n.name[..|row.name|]
            && (forall i :: |row.name| <= i < |n.name| ==> n.name[i] == ' ')
            && |row.day| <= DayWidth && row.day == n.day[..|row.day|]
            && (forall i :: |row.day| <= i < |n.day| ==> n.day[i] == ' ')
            && |row.time| <= TimeWidth && row.time == n.time[..|row.time|]
            && (forall i :: |row.time| <= i < |n.time| ==> n.time[i] == ' ')
            && (|n.name| <= NameWidth && |n.day| <= DayWidth && |n.time| <= TimeWidth ==> row == RowOf(t.nextId, n, ts))
  {
    StoredTextMeaning(n.name, NameWidth);
    StoredTextMeaning(n.day, DayWidth);
    StoredTextMeaning(n.time, TimeWidth);
  }

  /** A day padded with spaces past its ten characters is stored cut to ten,
      not refused. */
  lemma PaddedDayIsCut(t: Table, ts: int)
    ensures var n := NewLocation("Deia", 39.7481, 2.6492, "day1       ", "9:00 AM", "Village walk");
            Create(t, n, ts).1 == Some(RowOf(t.nextId, n.(day := "day1      "), ts))
  {
    var n := NewLocation("Deia", 39.7481, 2.6492, "day1       ", "9:00 AM", "Village walk");
    StoredTextMeaning(n.day, DayWidth);
    StoredTextMeaning(n.name, NameWidth);
    StoredTextMeaning(n.time, TimeWidth);
    assert SpacesFrom(n.day, DayWidth);
    assert n.day[..DayWidth] == "day1      ";
  }

  /** After a failed insert the next row does not get the id the failed one
      would have had: ids are increasing but not consecutive. */
  lemma FailedCreateSkipsId(t: Table, bad: NewLocation, good: NewLocation, ts: int, ts2: int)
    requires WellFormed(t)
    requires Create(t, bad, ts).1.None?
    requires Create(Create(t, bad, ts).0, good, ts2).1.Some?
    ensures var row := Create(Create(t, bad, ts).0, good, ts2).1.value;
            row.id == Some(t.nextId + 1) && t.nextId !in Create(Create(t, bad, ts).0, good, ts2).0.rows
  {
  }

  /** The table after inserting each location in turn. */
  function InsertAll(t: Table, ns: seq<NewLocation>, ts: int): Table
  {
    if ns == [] then t else Insert(InsertAll(t, ns[..|ns| - 1], ts), ns[|ns| - 1], ts).0
  }

  /** Inserting `ns` adds exactly one row per element, under consecutive new
      keys, and leaves the existing rows alone. */
  lemma {:induction false} InsertAllAppends(t: Table, ns: seq<NewLocation>, ts: int)
    requires WellFormed(t)
    ensures var r := InsertAll(t, ns, ts);
            && WellFormed(r)
            && r.nextId == t.nextId + |ns|
            && (forall k :: k in r.rows <==> k in t.rows || t.nextId <= k < t.nextId + |ns|)
            && (forall k :: k in t.rows ==> r.rows[k] == t.rows[k])
            && (forall i :: 0 <= i < |ns| ==> r.rows[t.nextId + i] == RowOf(t.nextId + i, ns[i], ts))
    decreases |ns|
  {
    if ns != [] {
      var init := ns[..|ns| - 1];
      InsertAllAppends(t, init, ts);
      var mid := InsertAll(t, init, ts);
      var r := InsertAll(t, ns, ts);
      assert r == Insert(mid, ns[|ns| - 1], ts).0;
      assert r.rows == mid.rows[mid.nextId := RowOf(mid.nextId, ns[|ns| - 1], ts)];
      forall i | 0 <= i < |ns|
        ensures r.rows[t.nextId + i] == RowOf(t.nextId + i, ns[i], ts)
      {
        if i < |init| {
          assert init[i] == ns[i];
        }
      }
    }
  }

  /** Inserting into a well-formed table never reuses a key, so the row count grows by `|ns|`. */
  lemma {:induction false} InsertAllCount(t: Table, ns: seq<NewLocation>, ts: int)
    requires WellFormed(t)
    ensures |InsertAll(t, ns, ts).rows| == |t.rows| + |ns|
    decreases |ns|
  {
    if ns != [] {
      var init := ns[..|ns| - 1];
      InsertAllCount(t, init, ts);
      InsertAllAppends(t, init, ts);
      var mid := InsertAll(t, init, ts);
      assert mid.nextId !in mid.rows;
    }
  }

  /** `seedInitialData()`: one INSERT per starter row, in order. */
  method SeedInitialData(t: Table, ts: int) returns (t': Table)
    ensures t' == Seeded(t, ts)
  {
    var seed := SeedLocations();
    t' := t;
    for i := 0 to |seed|
      invariant t' == InsertAll(t, seed[..i], ts)
    {
      assert seed[..i + 1][..i] == seed[..i];
      t' := Insert(t', seed[i], ts).0;
    }
    assert seed[..|seed|] == seed;
  }

  /** A table after `seedInitialData()`. */
  function Seeded(t: Table, ts: int): Table
  {
    InsertAll(t, SeedLocations(), ts)
  }

  /** The statements `initializeDatabase()` sends, each committed on its
      own: 0 is `CREATE TABLE IF NOT EXISTS`, 1 the `COUNT(*)`, and `2 + i`
      the INSERT of starter row `i`, sent only when the count is 0. */
  function StatementsSent(db: Option<Table>): nat
  {
    if db.Some? && |db.value.rows| > 0 then 2 else 2 + |SeedLocations()|
  }

  /** The number of starter rows inserted before the statement `failsAt`. */
  function SeedsWritten(failsAt: Option<nat>): (n: nat)
    ensures n <= |SeedLocations()|
  {
    match failsAt
    case None => |SeedLocations()|
    case Some(k) => if k <= 2 then 0 else if k - 2 < |SeedLocations()| then k - 2 else |SeedLocations()|
  }

  /** The table `CREATE TABLE IF NOT EXISTS` leaves. */
  function Created(db: Option<Table>): Table
  {
    if db.Some? then db.value else EmptyTable
  }

  /** `initializeDatabase()`: create the table if it is missing and seed it
      when it has no rows. `failsAt` is the first statement that fails, if
      any; the statements before it have taken effect. A failure is reported
      as `false`, not thrown. */
  function Initialize(db: Option<Table>, failsAt: Option<nat>, ts: int): (r: (Option<Table>, bool))
    ensures r.1 <==> failsAt.None? || failsAt.value >= StatementsSent(db)
    ensures failsAt == Some(0) ==> r.0 == db
    ensures failsAt != Some(0) ==> r.0.Some?
    ensures db.Some? && |db.value.rows| > 0 ==> r.0 == db
    ensures failsAt != Some(0) && |Created(db).rows| == 0 ==>
              r.0 == Some(InsertAll(Created(db), SeedLocations()[..SeedsWritten(failsAt)], ts))
    ensures r.1 && |Created(db).rows| == 0 ==> r.0 == Some(Seeded(Created(db), ts))
  {
    if failsAt == Some(0) then (db, false)
    else
      var t := Created(db);
      if |t.rows| > 0 then (Some(t), failsAt != Some(1))
      else
        var ok := failsAt.None? || failsAt.value >= StatementsSent(db);
        assert ok ==> SeedLocations()[..SeedsWritten(failsAt)] == SeedLocations();
        (Some(InsertAll(t, SeedLocations()[..SeedsWritten(failsAt)], ts)), ok)
  }

  /** Seeding an empty table leaves it with the 26 starter rows, every one
      on one of the five days and inside the coordinate ranges. */
  lemma SeededValid(t: Table, ts: int)
    requires WellFormed(t) && |t.rows| == 0
    ensures var r := Seeded(t, ts);
            && WellFormed(r) && |r.rows| == 26
            && forall k :: k in r.rows ==> IsDayTag(r.rows[k].day) && InRange(r.rows[k].lat, r.rows[k].lng)
  {
    InsertedSeedsValid(t, SeedLocations(), ts);
  }

  lemma InsertedSeedsValid(t0: Table, seed: seq<NewLocation>, ts: int)
    requires WellFormed(t0) && |t0.rows| == 0
    requires AllValid(seed)
    ensures var t := InsertAll(t0, seed, ts);
            && WellFormed(t) && |t.rows| == |seed|
            && forall k :: k in t.rows ==> IsDayTag(t.rows[k].day) && InRange(t.rows[k].lat, t.rows[k].lng)
  {
    InsertAllAppends(t0, seed, ts);
    InsertAllCount(t0, seed, ts);
    var t := InsertAll(t0, seed, ts);
    forall k | k in t.rows
      ensures IsDayTag(t.rows[k].day) && InRange(t.rows[k].lat, t.rows[k].lng)
    {
      assert k !in t0.rows;
      var i := k - t0.nextId;
      assert t.rows[k] == RowOf(k, seed[i], ts);
      assert ValidSeed(seed[i]);
    }
  }

  /** Initialization keeps the table well formed, wherever it stops. */
  lemma InitializeKeepsWellFormed(db: Option<Table>, failsAt: Option<nat>, ts: int)
    requires db.None? || WellFormed(db.value)
    ensures var r := Initialize(db, failsAt, ts).0;
            r.None? || WellFormed(r.value)
  {
    var t0 := Created(db);
    if failsAt != Some(0) && |t0.rows| == 0 {
      InsertAllAppends(t0, SeedLocations()[..SeedsWritten(failsAt)], ts);
    }
  }

  /** Once initialization has succeeded, every later run, whichever
      statement fails in it, leaves the table as it is. */
  lemma InitializeIdempotent(db: Option<Table>, ts: int, failsAt2: Option<nat>, ts2: int)
    requires db.None? || WellFormed(db.value)
    ensures var once := Initialize(db, None, ts).0;
            Initialize(once, failsAt2, ts2).0 == once
  {
    var t0 := Created(db);
    if |t0.rows| == 0 {
      SeededValid(t0, ts);
    }
  }

  /** A failure at the COUNT on a missing table leaves it created and
      empty: the run reports failure, yet the table now exists. */
  lemma CountFailureLeavesEmptyTable(ts: int)
    ensures Initialize(None, Some(1), ts) == (Some(EmptyTable), false)
  {
    assert SeedLocations()[..0] == [];
  }

  /** A seed cut short stays short. When insert `k` of the 26 fails, the
      table keeps the first `k` starter rows, and since its count is no
      longer 0, no later run, successful or not, seeds the rest. */
  lemma TruncatedSeedPersists(db: Option<Table>, k: nat, ts: int, failsAt2: Option<nat>, ts2: int)
    requires db.None? || (WellFormed(db.value) && |db.value.rows| == 0)
    requires 0 < k < |SeedLocations()|
    ensures var r := Initialize(db, Some(2 + k), ts);
            && !r.1 && r.0.Some? && |r.0.value.rows| == k
            && Initialize(r.0, failsAt2, ts2).0 == r.0
  {
    var t0 := Created(db);
    InsertAllCount(t0, SeedLocations()[..k], ts);
  }

  /** The rank `getAllLocations` sorts on: `day1`..`day5` are 1..5, any other day 6. */
  function DayRank(day: string): (r: int)
    ensures 1 <= r <= 6
    ensures r <= 5 <==> IsDayTag(day)
    ensures r <= 5 ==> DayTags[r - 1] == day
  {
    if day == "day1" then 1
    else if day == "day2" then 2
    else if day == "day3" then 3
    else if day == "day4" then 4
    else if day == "day5" then 5
    else 6
  }

  function RowId(x: Location): int
  {
    if x.id.Some? then x.id.value else 0
  }

  /** `ORDER BY CASE day ... END, id`: by day rank, then by id. */
  predicate ListedBefore(a: Location, b: Location)
  {
    DayRank(a.day) < DayRank(b.day) || (DayRank(a.day) == DayRank(b.day) && RowId(a) < RowId(b))
  }

  predicate KeyedRows(rows: map<int, Location>)
  {
    forall k :: k in rows ==> rows[k].id == Some(k)
  }

  predicate IsFirstKey(rows: map<int, Location>, k: int)
  {
    k in rows && forall j :: j in rows && j != k ==> ListedBefore(rows[k], rows[j])
  }

  lemma PickKey(rows: map<int, Location>) returns (k: int)
    requires |rows| > 0
    ensures k in rows
  {
    assert |rows.Items| == |rows|;
    var kv :| kv in rows.Items;
    k := kv.0;
  }

  lemma {:induction false} FirstKeyExists(rows: map<int, Location>)
    requires KeyedRows(rows) && |rows| > 0
    ensures exists k :: IsFirstKey(rows, k)
    decreases |rows|
  {
    var k := PickKey(rows);
    var rest := rows - {k};
    if |rest| == 0 {
      assert rest == map[];
      assert forall j :: j in rows && j != k ==> j in rest;
      assert IsFirstKey(rows, k);
    } else {
      FirstKeyExists(rest);
      var m :| IsFirstKey(rest, m);
      if ListedBefore(rows[m], rows[k]) {
        assert IsFirstKey(rows, m);
      } else {
        assert IsFirstKey(rows, k);
      }
    }
  }

  /** The row stored under its own id. */
  predicate Stored(rows: map<int, Location>, x: Location)
  {
    RowId(x) in rows && rows[RowId(x)] == x
  }

  /** `r` lists every row of `rows` exactly once, nothing else, strictly in
      list order (day rank, then id). */
  predicate ListsInOrder(rows: map<int, Location>, r: seq<Location>)
  {
    && |r| == |rows|
    && (forall k :: k in rows ==> rows[k] in r)
    && (forall i :: 0 <= i < |r| ==> Stored(rows, r[i]))
    && (forall i, j :: 0 <= i < j < |r| ==> ListedBefore(r[i], r[j]))
  }

  lemma ListStep(rows: map<int, Location>, k: int, tail: seq<Location>)
    requires KeyedRows(rows) && IsFirstKey(rows, k)
    requires ListsInOrder(rows - {k}, tail)
    ensures ListsInOrder(rows, [rows[k]] + tail)
  {
    assert |rows - {k}| == |rows| - 1;
    ListStepMembers(rows, k, tail);
    ListStepStored(rows, k, tail);
    ListStepOrdered(rows, k, tail);
  }

  lemma ListStepMembers(rows: map<int, Location>, k: int, tail: seq<Location>)
    requires k in rows && forall j :: j in rows - {k} ==> (rows - {k})[j] in tail
    ensures forall j :: j in rows ==> rows[j] in [rows[k]] + tail
  {
    forall j | j in rows
      ensures rows[j] in [rows[k]] + tail
    {
      if j != k {
        assert j in rows - {k};
      }
    }
  }

  lemma ListStepStored(rows: map<int, Location>, k: int, tail: seq<Location>)
    requires KeyedRows(rows) && k in rows && forall i :: 0 <= i < |tail| ==> Stored(rows - {k}, tail[i])
    ensures forall i :: 0 <= i < |tail| + 1 ==> Stored(rows, ([rows[k]] + tail)[i])
  {
    forall i | 0 <= i < |tail| + 1
      ensures Stored(rows, ([rows[k]] + tail)[i])
    {
      if i > 0 {
        assert ([rows[k]] + tail)[i] == tail[i - 1];
        assert Stored(rows - {k}, tail[i - 1]);
      }
    }
  }

  lemma ListStepOrdered(rows: map<int, Location>, k: int, tail: seq<Location>)
    requires KeyedRows(rows) && IsFirstKey(rows, k)
    requires forall i :: 0 <= i < |tail| ==> Stored(rows - {k}, tail[i])
    requires forall i, j :: 0 <= i < j < |tail| ==> ListedBefore(tail[i], tail[j])
    ensures forall i, j :: 0 <= i < j < |tail| + 1 ==> ListedBefore(([rows[k]] + tail)[i], ([rows[k]] + tail)[j])
  {
    var r := [rows[k]] + tail;
    forall i, j | 0 <= i < j < |r|
      ensures ListedBefore(r[i], r[j])
    {
      assert r[j] == tail[j - 1];
      assert Stored(rows - {k}, tail[j - 1]);
      if i > 0 {
        assert r[i] == tail[i - 1];
      } else {
        var kj := RowId(r[j]);
        assert kj in rows && kj != k && rows[kj] == r[j];
      }
    }
  }

  /** `getAllLocations()`: every row exactly once, nothing else, strictly in
      list order (day rank, then id). */
  function ListAll(rows: map<int, Location>): (r: seq<Location>)
    requires KeyedRows(rows)
    ensures ListsInOrder(rows, r)
    decreases |rows|
  {
    if |rows| == 0 then
      assert rows == map[];
      []
    else
      FirstKeyExists(rows);
      var k :| IsFirstKey(rows, k);
      var rest := rows - {k};
      assert |rest| == |rows| - 1;
      var tail := ListAll(rest);
      ListStep(rows, k, tail);
      [rows[k]] + tail
  }

  /** `deleteLocation(id)`: the row goes if it was there, and the answer is
      `true` either way: a missing id is not reported. */
  function Delete(t: Table, id: int): (r: (Table, bool))
    ensures r.1
    ensures r.0.rows == t.rows - {id} && r.0.nextId == t.nextId
    ensures WellFormed(t) ==> WellFormed(r.0)
  {
    (Table(t.rows - {id}, t.nextId), true)
  }

  /** The columns `updateLocation` may write. */
  datatype Column = NameColumn | LatColumn | LngColumn | DayColumn | TimeColumn | DescriptionColumn

  /** A bound parameter value. */
  datatype SqlValue = Text(text: string) | Number(number: real) | Integer(integer: int)

  /** `Partial<Omit<Location, 'id' | 'created_at' | 'updated_at'>>`: `None` is an absent field. */
  datatype Patch = Patch(name: Option<string>, lat: Option<real>, lng: Option<real>,
                         day: Option<string>, time: Option<string>, description: Option<string>)

  /** One item of the SET list: `column = $param`, or `updated_at = CURRENT_TIMESTAMP`. */
  datatype SetItem = Assign(column: Column, param: nat) | TouchUpdatedAt

  /** `UPDATE locations SET <items> WHERE id = $<whereParam>` with its bound values. */
  datatype UpdateQuery = UpdateQuery(items: seq<SetItem>, values: seq<SqlValue>, whereParam: nat)

  /** One supplied field, or nothing for an absent one. */
  function Field<V>(c: Column, o: Option<V>, wrap: V -> SqlValue): seq<(Column, SqlValue)>
  {
    if o.Some? then [(c, wrap(o.value))] else []
  }

  function AsText(s: string): SqlValue { Text(s) }
  function AsNumber(x: real): SqlValue { Number(x) }

  /** The fields a patch supplies, in the order name, lat, lng, day, time, description. */
  function Supplied(p: Patch): seq<(Column, SqlValue)>
  {
    Field(NameColumn, p.name, AsText) + Field(LatColumn, p.lat, AsNumber) + Field(LngColumn, p.lng, AsNumber)
    + Field(DayColumn, p.day, AsText) + Field(TimeColumn, p.time, AsText) + Field(DescriptionColumn, p.description, AsText)
  }

  /** The SET items and values built so far assign the fields `s` to
      `$1`..`$|s|` in order, and `$paramIndex` is the next placeholder. */
  predicate Numbered(items: seq<SetItem>, values: seq<SqlValue>, s: seq<(Column, SqlValue)>, paramIndex: int)
  {
    |items| == |s| && |values| == |s| && paramIndex == |s| + 1
    && (forall i :: 0 <= i < |s| ==> items[i] == Assign(s[i].0, i + 1) && values[i] == s[i].1)
  }

  /** The query `updateLocation(id, p)` sends: one numbered item per
      supplied field, then the timestamp bump; the id bound last, as the
      WHERE parameter. */
  predicate BuiltFor(q: UpdateQuery, id: int, p: Patch)
  {
    var s := Supplied(p);
    |q.items| == |s| + 1 && |q.values| == |s| + 1
    && Numbered(q.items[..|s|], q.values[..|s|], s, |s| + 1)
    && q.items[|s|] == TouchUpdatedAt
    && q.values[|s|] == Integer(id)
    && q.whereParam == |s| + 1
  }

  /** One `if (field !== undefined) { updates.push(...); values.push(...) }` step. */
  method PushField<V>(items: seq<SetItem>, values: seq<SqlValue>, ghost s: seq<(Column, SqlValue)>, paramIndex: int,
                      c: Column, o: Option<V>, wrap: V -> SqlValue)
    returns (items': seq<SetItem>, values': seq<SqlValue>, ghost s': seq<(Column, SqlValue)>, paramIndex': int)
    requires Numbered(items, values, s, paramIndex)
    ensures s' == s + Field(c, o, wrap)
    ensures Numbered(items', values', s', paramIndex')
  {
    items', values', s', paramIndex' := items, values, s, paramIndex;
    if o.Some? {
      items' := items + [Assign(c, paramIndex)];
      values' := values + [wrap(o.value)];
      s' := s + [(c, wrap(o.value))];
      paramIndex' := paramIndex + 1;
    }
  }

  /** The query-building half of `updateLocation`: pushes onto the SET list
      and the value list, counting placeholders as it goes. */
  method BuildUpdate(id: int, p: Patch) returns (q: UpdateQuery)
    ensures BuiltFor(q, id, p)
  {
    var items: seq<SetItem> := [];
    var values: seq<SqlValue> := [];
    var paramIndex := 1;
    ghost var s: seq<(Column, SqlValue)> := [];
    items, values, s, paramIndex := PushField(items, values, s, paramIndex, NameColumn, p.name, AsText);
    items, values, s, paramIndex := PushField(items, values, s, paramIndex, LatColumn, p.lat, AsNumber);
    items, values, s, paramIndex := PushField(items, values, s, paramIndex, LngColumn, p.lng, AsNumber);
    items, values, s, paramIndex := PushField(items, values, s, paramIndex, DayColumn, p.day, AsText);
    items, values, s, paramIndex := PushField(items, values, s, paramIndex, TimeColumn, p.time, AsText);
    items, values, s, paramIndex := PushField(items, values, s, paramIndex, DescriptionColumn, p.description, AsText);
    assert s == Supplied(p);
    q := UpdateQuery(items + [TouchUpdatedAt], values + [Integer(id)], paramIndex);
    assert q.items[..|s|] == items && q.values[..|s|] == values;
  }

  /** One column assignment on a row. A text value its column refuses, a
      coordinate with too many integer digits, or a value of the wrong kind
      makes the statement fail; a text value with only spaces past the
      width is stored cut. */
  function SetColumn(row: Location, c: Column, v: SqlValue): Option<Location>
  {
    match (c, v)
    case (NameColumn, Text(s)) =>
      var k := StoredText(s, NameWidth); if k.Some? then Some(row.(name := k.value)) else None
    case (LatColumn, Number(x)) => if LatFits(x) then Some(row.(lat := x)) else None
    case (LngColumn, Number(x)) => if LngFits(x) then Some(row.(lng := x)) else None
    case (DayColumn, Text(s)) =>
      var k := StoredText(s, DayWidth); if k.Some? then Some(row.(day := k.value)) else None
    case (TimeColumn, Text(s)) =>
      var k := StoredText(s, TimeWidth); if k.Some? then Some(row.(time := k.value)) else None
    case (DescriptionColumn, Text(s)) => Some(row.(description := s))
    case _ => None
  }

  /** The SET list evaluated on one row, item by item; `$k` reads the k-th bound value. */
  function ApplyItems(row: Location, items: seq<SetItem>, values: seq<SqlValue>, ts: int): Option<Location>
    decreases |items|
  {
    if items == [] then Some(row)
    else
      var next :=
        match items[0]
        case TouchUpdatedAt => Some(row.(updatedAt := Some(ts)))
        case Assign(c, k) => if 1 <= k <= |values| then SetColumn(row, c, values[k - 1]) else None;
      if next.None? then None else ApplyItems(next.value, items[1..], values, ts)
  }

  /** `UPDATE locations SET ... WHERE id = $w RETURNING *` run against the
      table: `None` when the statement fails, otherwise the new table and the
      first returned row, which is absent when no row has that id. */
  function Execute(t: Table, q: UpdateQuery, ts: int): Option<(Table, Option<Location>)>
  {
    if !(1 <= q.whereParam <= |q.values|) || !q.values[q.whereParam - 1].Integer? then None
    else
      var id := q.values[q.whereParam - 1].integer;
      if id !in t.rows then Some((t, None))
      else
        var row := ApplyItems(t.rows[id], q.items, q.values, ts);
        if row.None? then None else Some((Table(t.rows[id := row.value], t.nextId), Some(row.value)))
  }

  /** The intended effect of a patch on a row: each supplied field replaced,
      every other field kept, and the update time bumped. */
  function Patched(row: Location, p: Patch, ts: int): Location
  {
    row.(name := if p.name.Some? then p.name.value else row.name,
         lat := if p.lat.Some? then p.lat.value else row.lat,
         lng := if p.lng.Some? then p.lng.value else row.lng,
         day := if p.day.Some? then p.day.value else row.day,
         time := if p.time.Some? then p.time.value else row.time,
         description := if p.description.Some? then p.description.value else row.description,
         updatedAt := Some(ts))
  }

  /** Every supplied text value is kept by its column and every supplied
      coordinate fits its `DECIMAL` column. */
  predicate PatchFits(p: Patch)
  {
    (p.name.None? || StoredText(p.name.value, NameWidth).Some?)
    && (p.lat.None? || LatFits(p.lat.value))
    && (p.lng.None? || LngFits(p.lng.value))
    && (p.day.None? || StoredText(p.day.value, DayWidth).Some?)
    && (p.time.None? || StoredText(p.time.value, TimeWidth).Some?)
  }

  /** A supplied text value as its column keeps it. */
  function Kept(o: Option<string>, width: nat): Option<string>
  {
    if o.Some? then Some(KeptText(o.value, width)) else None
  }

  /** The patch as the columns keep it. */
  function AsKept(p: Patch): Patch
  {
    p.(name := Kept(p.name, NameWidth), day := Kept(p.day, DayWidth), time := Kept(p.time, TimeWidth))
  }

  /** The fields assigned in turn, without the timestamp bump. */
  function ApplyFields(row: Location, s: seq<(Column, SqlValue)>): Option<Location>
    decreases |s|
  {
    if s == [] then Some(row)
    else
      var next := SetColumn(row, s[0].0, s[0].1);
      if next.None? then None else ApplyFields(next.value, s[1..])
  }

  lemma {:induction false} ApplyFieldsAppend(row: Location, a: seq<(Column, SqlValue)>, b: seq<(Column, SqlValue)>)
    ensures ApplyFields(row, a + b) ==
            (var r := ApplyFields(row, a); if r.None? then None else ApplyFields(r.value, b))
    decreases |a|
  {
    if a != [] {
      assert (a + b)[0] == a[0] && (a + b)[1..] == a[1..] + b;
      var next := SetColumn(row, a[0].0, a[0].1);
      if next.Some? {
        ApplyFieldsAppend(next.value, a[1..], b);
      }
    } else {
      assert a + b == b;
    }
  }

  /** A numbered SET list ending in the timestamp bump does what its fields say, then bumps. */
  lemma {:induction false} ItemsAsFields(row: Location, items: seq<SetItem>, values: seq<SqlValue>,
                                         s: seq<(Column, SqlValue)>, j: nat, ts: int)
    requires |items| == |s| + 1 && |values| >= |s| && j <= |s|
    requires items[|s|] == TouchUpdatedAt
    requires forall i :: 0 <= i < |s| ==> items[i] == Assign(s[i].0, i + 1) && values[i] == s[i].1
    ensures ApplyItems(row, items[j..], values, ts) ==
            (var r := ApplyFields(row, s[j..]); if r.None? then None else Some(r.value.(updatedAt := Some(ts))))
    decreases |s| - j
  {
    if j == |s| {
      assert items[j..][1..] == [];
    } else {
      assert items[j..][0] == Assign(s[j].0, j + 1);
      assert items[j..][1..] == items[j + 1..];
      assert s[j..][0] == s[j] && s[j..][1..] == s[j + 1..];
      var next := SetColumn(row, s[j].0, s[j].1);
      if next.Some? {
        ItemsAsFields(next.value, items, values, s, j + 1, ts);
      }
    }
  }

  /** The rest of the fields, after the first ones have been assigned (or have failed). */
  function Then(r: Option<Location>, s: seq<(Column, SqlValue)>): Option<Location>
  {
    if r.None? then None else ApplyFields(r.value, s)
  }

  lemma FieldStep<V>(r: Option<Location>, c: Column, o: Option<V>, wrap: V -> SqlValue)
    ensures Then(r, Field(c, o, wrap)) ==
            if r.None? then None else if o.None? then r else SetColumn(r.value, c, wrap(o.value))
  {
    if r.Some? && o.Some? {
      var s := Field(c, o, wrap);
      assert s == [(c, wrap(o.value))] && s[1..] == [];
      var next := SetColumn(r.value, c, wrap(o.value));
      if next.Some? {
        assert ApplyFields(next.value, s[1..]) == Some(next.value);
      }
    }
  }

  lemma ThenAppend(r: Option<Location>, a: seq<(Column, SqlValue)>, b: seq<(Column, SqlValue)>)
    ensures Then(r, a + b) == Then(Then(r, a), b)
  {
    if r.Some? {
      ApplyFieldsAppend(r.value, a, b);
    }
  }

  /** Assigning the supplied fields is assigning each field's part in turn. */
  lemma SuppliedInTurn(r0: Option<Location>, p: Patch)
    ensures Then(r0, Supplied(p)) ==
            Then(Then(Then(Then(Then(Then(r0, Field(NameColumn, p.name, AsText)), Field(LatColumn, p.lat, AsNumber)),
              Field(LngColumn, p.lng, AsNumber)), Field(DayColumn, p.day, AsText)), Field(TimeColumn, p.time, AsText)),
              Field(DescriptionColumn, p.description, AsText))
  {
    var f1 := Field(NameColumn, p.name, AsText);
    var f2 := Field(LatColumn, p.lat, AsNumber);
    var f3 := Field(LngColumn, p.lng, AsNumber);
    var f4 := Field(DayColumn, p.day, AsText);
    var f5 := Field(TimeColumn, p.time, AsText);
    var f6 := Field(DescriptionColumn, p.description, AsText);
    ThenAppend(r0, f1 + f2 + f3 + f4 + f5, f6);
    ThenAppend(r0, f1 + f2 + f3 + f4, f5);
    ThenAppend(r0, f1 + f2 + f3, f4);
    ThenAppend(r0, f1 + f2, f3);
    ThenAppend(r0, f1, f2);
  }

  function Fill<V>(o: Option<V>, current: V): V
  {
    if o.Some? then o.value else current
  }

  lemma FirstThreeFields(row: Location, p: Patch)
    ensures Then(Then(Then(Some(row), Field(NameColumn, p.name, AsText)), Field(LatColumn, p.lat, AsNumber)),
              Field(LngColumn, p.lng, AsNumber))
            == if (p.name.None? || StoredText(p.name.value, NameWidth).Some?)
                  && (p.lat.None? || LatFits(p.lat.value)) && (p.lng.None? || LngFits(p.lng.value))
               then Some(row.(name := Fill(Kept(p.name, NameWidth), row.name), lat := Fill(p.lat, row.lat),
                              lng := Fill(p.lng, row.lng)))
               else None
  {
    var r1 := Then(Some(row), Field(NameColumn, p.name, AsText));
    FieldStep(Some(row), NameColumn, p.name, AsText);
    var r2 := Then(r1, Field(LatColumn, p.lat, AsNumber));
    FieldStep(r1, LatColumn, p.lat, AsNumber);
    FieldStep(r2, LngColumn, p.lng, AsNumber);
  }

  lemma LastThreeFields(row: Location, p: Patch)
    ensures Then(Then(Then(Some(row), Field(DayColumn, p.day, AsText)), Field(TimeColumn, p.time, AsText)),
              Field(DescriptionColumn, p.description, AsText))
            == if (p.day.None? || StoredText(p.day.value, DayWidth).Some?)
                  && (p.time.None? || StoredText(p.time.value, TimeWidth).Some?)
               then Some(row.(day := Fill(Kept(p.day, DayWidth), row.day), time := Fill(Kept(p.time, TimeWidth), row.time),
                              description := Fill(p.description, row.description)))
               else None
  {
    var r1 := Then(Some(row), Field(DayColumn, p.day, AsText));
    FieldStep(Some(row), DayColumn, p.day, AsText);
    var r2 := Then(r1, Field(TimeColumn, p.time, AsText));
    FieldStep(r1, TimeColumn, p.time, AsText);
    FieldStep(r2, DescriptionColumn, p.description, AsText);
  }

  lemma ThenChain(r: Option<Location>, a: seq<(Column, SqlValue)>, b: seq<(Column, SqlValue)>, c: seq<(Column, SqlValue)>,
                  d: seq<(Column, SqlValue)>, e: seq<(Column, SqlValue)>, f: seq<(Column, SqlValue)>)
    ensures var m := Then(Then(Then(r, a), b), c);
            Then(Then(Then(Then(Then(Then(r, a), b), c), d), e), f) ==
            if m.None? then None else Then(Then(Then(m, d), e), f)
  {
  }

  /** The supplied fields, assigned in order, give the row patched with the
      values as kept (before the bump), and fail exactly when a text value
      is refused or a coordinate overflows its column. */
  lemma SuppliedAsPatch(row: Location, p: Patch, ts: int)
    ensures var r := ApplyFields(row, Supplied(p));
            (r.Some? <==> PatchFits(p))
            && (r.Some? ==> r.value.(updatedAt := Some(ts)) == Patched(row, AsKept(p), ts))
  {
    SuppliedInTurn(Some(row), p);
    ThenChain(Some(row), Field(NameColumn, p.name, AsText), Field(LatColumn, p.lat, AsNumber), Field(LngColumn, p.lng, AsNumber),
              Field(DayColumn, p.day, AsText), Field(TimeColumn, p.time, AsText), Field(DescriptionColumn, p.description, AsText));
    FirstThreeFields(row, p);
    var e3 := row.(name := Fill(Kept(p.name, NameWidth), row.name), lat := Fill(p.lat, row.lat), lng := Fill(p.lng, row.lng));
    LastThreeFields(e3, p);
  }

  /** `updateLocation(id, p)`: the query it builds, once run, patches exactly
      the row with that id (supplied fields replaced, the others kept, the
      update time bumped) and returns it; an id with no row changes nothing
      and returns no row; a refused text value or an overflowing coordinate
      fails the statement. */
  method UpdateLocation(t: Table, id: int, p: Patch, ts: int) returns (r: Option<(Table, Option<Location>)>)
    ensures id !in t.rows ==> r == Some((t, None))
    ensures id in t.rows && !PatchFits(p) ==> r.None?
    ensures id in t.rows && PatchFits(p) ==>
              var row := Patched(t.rows[id], AsKept(p), ts);
              r == Some((Table(t.rows[id := row], t.nextId), Some(row)))
  {
    var q := BuildUpdate(id, p);
    r := Execute(t, q, ts);
    if id in t.rows {
      var s := Supplied(p);
      ItemsAsFields(t.rows[id], q.items, q.values, s, 0, ts);
      assert q.items[0..] == q.items && s[0..] == s;
      SuppliedAsPatch(t.rows[id], p, ts);
    }
  }

  /** With no field supplied the statement still runs and only bumps the update time. */
  lemma EmptyPatchTouchesOnly(t: Table, id: int, ts: int)
    requires id in t.rows
    ensures var p := Patch(None, None, None, None, None, None);
            Patched(t.rows[id], p, ts) == t.rows[id].(updatedAt := Some(ts))
            && Supplied(p) == []
  {
  }
}
