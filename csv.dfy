/**
 * The waypoint CSV loader, `loadFlyoverData`, as both versions of the player
 * have it: the text is split into lines, the header line is skipped, each
 * line is split at commas into path name, longitude, latitude, altitude and
 * timestamp, lines without a path name, longitude or latitude are dropped,
 * the rest are grouped by path name in input order, and each group is sorted
 * by timestamp. The two versions differ only in the default altitude, which
 * is a parameter here.
 */
module Csv {
  import opened Wrappers
  import opened JsText
  import opened Waypoints

  /** A kept line: its path name and its waypoint. */
  type Row = (string, Waypoint)

  /** Field `i` of the destructuring `[path_name, longitude, ...] = line.split(',')`: `None` is undefined. */
  function Field(fields: seq<string>, i: nat): Option<string> {
    if i < |fields| then Some(fields[i]) else None
  }

  /** JavaScript truthiness of a field: defined and not the empty string. */
  predicate Present(field: Option<string>) {
    field.Some? && field.value != []
  }

  /** `parseFloat(field)` for a coordinate. */
  function CoordinateOf(field: string): Num {
    match ParseFloat(field)
    case Some(v) => Finite(v)
    case None => NaN
  }

  /** `parseFloat(altitude) || defaultAltitude`: NaN, a missing field and 0 all fall back. */
  function AltitudeOf(field: Option<string>, defaultAltitude: real): (altitude: real)
    ensures defaultAltitude != 0.0 ==> altitude != 0.0
    ensures altitude == defaultAltitude
            || (field.Some? && ParseFloat(field.value) == Some(altitude) && altitude != 0.0)
    ensures field.Some? && ParseFloat(field.value).Some? && ParseFloat(field.value).value != 0.0
            ==> altitude == ParseFloat(field.value).value
    ensures field.None? || ParseFloat(field.value).None? || ParseFloat(field.value).value == 0.0
            ==> altitude == defaultAltitude
  {
    if field.None? then defaultAltitude
    else match ParseFloat(field.value)
      case Some(v) => if v == 0.0 then defaultAltitude else v
      case None => defaultAltitude
  }

  /** `parseInt(timestamp) || 0`. */
  function TimestampOf(field: Option<string>): (timestamp: int)
    ensures timestamp == 0 || (field.Some? && ParseInt(field.value) == Some(timestamp))
    ensures field.Some? && ParseInt(field.value).Some? ==> timestamp == ParseInt(field.value).value
    ensures field.None? || ParseInt(field.value).None? ==> timestamp == 0
  {
    if field.None? then 0 else ParseInt(field.value).GetOr(0)
  }

  /** The (path name, waypoint) pair one line contributes, or `None` when the line is dropped. */
  function ParseLine(line: string, defaultAltitude: real): (row: Option<Row>)
    ensures var fields := Split(line, ',');
            row.Some? <==> Present(Field(fields, 0)) && Present(Field(fields, 1)) && Present(Field(fields, 2))
    ensures row.Some? ==> row.value.0 != [] && ',' !in row.value.0
    ensures row.Some? && defaultAltitude != 0.0 ==> row.value.1.altitude != 0.0
    ensures var fields := Split(line, ',');
            row.Some? ==> |fields| >= 3 && row.value.0 == fields[0]
                          && row.value.1 == Waypoint(CoordinateOf(fields[1]), CoordinateOf(fields[2]),
                                                     AltitudeOf(Field(fields, 3), defaultAltitude),
                                                     TimestampOf(Field(fields, 4)))
  {
    var fields := Split(line, ',');
    var pathName, longitude, latitude := Field(fields, 0), Field(fields, 1), Field(fields, 2);
    if Present(pathName) && Present(longitude) && Present(latitude) then
      Some((pathName.value,
            Waypoint(CoordinateOf(longitude.value), CoordinateOf(latitude.value),
                     AltitudeOf(Field(fields, 3), defaultAltitude), TimestampOf(Field(fields, 4)))))
    else None
  }

  /** The result of `ParseLine` for every line, in order. */
  function ParseLines(lines: seq<string>, defaultAltitude: real): (parsed: seq<Option<Row>>)
    ensures |parsed| == |lines|
    ensures forall i :: 0 <= i < |lines| ==> parsed[i] == ParseLine(lines[i], defaultAltitude)
  {
    seq(|lines|, i requires 0 <= i < |lines| => ParseLine(lines[i], defaultAltitude))
  }

  /** The rows of the lines that survive the filter, in input order. */
  function Kept(parsed: seq<Option<Row>>): seq<Row> {
    if parsed == [] then []
    else
      Kept(parsed[..|parsed| - 1])
      + match parsed[|parsed| - 1] case Some(row) => [row] case None => []
  }

  function Rows(lines: seq<string>, defaultAltitude: real): seq<Row> {
    Kept(ParseLines(lines, defaultAltitude))
  }

  /** The path names that occur in `rows`. */
  function Names(rows: seq<Row>): set<string> {
    set i | 0 <= i < |rows| :: rows[i].0
  }

  /** The waypoints of path `name`, in the order of `rows`. */
  function Named(rows: seq<Row>, name: string): seq<Waypoint> {
    if rows == [] then []
    else
      var last := rows[|rows| - 1];
      Named(rows[..|rows| - 1], name) + (if last.0 == name then [last.1] else [])
  }

  /** `parsedData[name].push(w)`, creating the list first when the name is new. */
  function Push(data: map<string, seq<Waypoint>>, name: string, w: Waypoint): map<string, seq<Waypoint>> {
    data[name := (if name in data then data[name] else []) + [w]]
  }

  /** The rows grouped by path name, before sorting: each row pushed in turn. */
  function Grouped(rows: seq<Row>): map<string, seq<Waypoint>> {
    if rows == [] then map[]
    else
      var last := rows[|rows| - 1];
      Push(Grouped(rows[..|rows| - 1]), last.0, last.1)
  }

  /** `csvData.split('\n').slice(1)`: every line after the header. */
  function DataLines(csvData: string): seq<string> {
    Split(csvData, '\n')[1..]
  }

  /**
   * What `loadFlyoverData` returns for `csvData`: one path for each path name
   * of a kept line after the header, holding that name's waypoints sorted.
   */
  function ParsedPaths(csvData: string, defaultAltitude: real): (paths: map<string, seq<Waypoint>>)
    ensures paths.Keys == Names(Rows(DataLines(csvData), defaultAltitude))
    ensures forall name :: name in paths ==>
              paths[name] == SortByTimestamp(Named(Rows(DataLines(csvData), defaultAltitude), name))
  {
    var rows := Rows(DataLines(csvData), defaultAltitude);
    GroupedContents(rows);
    var grouped := Grouped(rows);
    map name | name in grouped :: SortByTimestamp(grouped[name])
  }

  /**
   * The loader as the source writes it: one pass over the lines after the
   * header that pushes each kept waypoint onto its path's list, then a pass
   * over the paths that sorts each list by timestamp.
   */
  method ParseCsv(csvData: string, defaultAltitude: real) returns (parsedData: map<string, seq<Waypoint>>)
    ensures parsedData == ParsedPaths(csvData, defaultAltitude)
  {
    var lines := Split(csvData, '\n')[1..];
    var grouped := GroupLines(lines, defaultAltitude);
    parsedData := SortPaths(grouped);
  }

  /** The first pass: push each kept line's waypoint onto the list of its path, creating the list on first use. */
  method GroupLines(lines: seq<string>, defaultAltitude: real) returns (parsedData: map<string, seq<Waypoint>>)
    ensures parsedData == Grouped(Rows(lines, defaultAltitude))
  {
    ghost var parsed := ParseLines(lines, defaultAltitude);
    parsedData := map[];
    for i := 0 to |lines|
      invariant parsedData == Grouped(Kept(parsed[..i]))
    {
      var row := ParseLine(lines[i], defaultAltitude);
      assert row == parsed[i];
      KeptStep(parsed, i);
      if row.Some? {
        parsedData := PushWaypoint(parsedData, row.value.0, row.value.1);
      }
    }
    assert parsed[..|lines|] == parsed;
  }

  /** Appends `waypoint` to the list of `pathName`, creating an empty list first when the name is new. */
  method PushWaypoint(data: map<string, seq<Waypoint>>, pathName: string, waypoint: Waypoint)
    returns (parsedData: map<string, seq<Waypoint>>)
    ensures parsedData == Push(data, pathName, waypoint)
  {
    parsedData := data;
    if pathName !in parsedData {
      parsedData := parsedData[pathName := []];
    }
    parsedData := parsedData[pathName := parsedData[pathName] + [waypoint]];
  }

  /** One line of the first pass: a kept line pushes its row, a dropped line changes nothing. */
  lemma KeptStep(parsed: seq<Option<Row>>, i: nat)
    requires i < |parsed|
    ensures Grouped(Kept(parsed[..i + 1]))
            == if parsed[i].Some? then Push(Grouped(Kept(parsed[..i])), parsed[i].value.0, parsed[i].value.1)
               else Grouped(Kept(parsed[..i]))
  {
    assert parsed[..i + 1][..i] == parsed[..i];
    assert parsed[..i + 1][i] == parsed[i];
    var rows := Kept(parsed[..i]);
    if parsed[i].Some? {
      assert Kept(parsed[..i + 1]) == rows + [parsed[i].value];
      assert (rows + [parsed[i].value])[..|rows|] == rows;
    } else {
      assert Kept(parsed[..i + 1]) == rows;
    }
  }

  /** The second pass: sort every path's list by timestamp. */
  method SortPaths(grouped: map<string, seq<Waypoint>>) returns (parsedData: map<string, seq<Waypoint>>)
    ensures parsedData == map name | name in grouped :: SortByTimestamp(grouped[name])
  {
    parsedData := grouped;
    var pending := grouped.Keys;
    while pending != {}
      invariant pending <= grouped.Keys && parsedData.Keys == grouped.Keys
      invariant forall name :: name in grouped ==>
                  parsedData[name] == if name in pending then grouped[name] else SortByTimestamp(grouped[name])
      decreases pending
    {
      var pathName :| pathName in pending;
      parsedData := parsedData[pathName := SortByTimestamp(parsedData[pathName])];
      pending := pending - {pathName};
    }
  }

  // ---------------------------------------------------------------------------
  // properties of the loaded data

  lemma {:induction false} NamesOfFront(rows: seq<Row>)
    requires rows != []
    ensures Names(rows) == Names(rows[..|rows| - 1]) + {rows[|rows| - 1].0}
  {
    var front := rows[..|rows| - 1];
    forall x | x in Names(rows) ensures x in Names(front) + {rows[|rows| - 1].0} {
      var i :| 0 <= i < |rows| && rows[i].0 == x;
      if i < |front| { assert front[i] == rows[i]; }
    }
    forall x | x in Names(front) ensures x in Names(rows) {
      var i :| 0 <= i < |front| && front[i].0 == x;
      assert rows[i] == front[i];
    }
  }

  lemma {:induction false} NamedAbsent(rows: seq<Row>, name: string)
    requires name !in Names(rows)
    ensures Named(rows, name) == []
  {
    if rows != [] {
      NamesOfFront(rows);
      NamedAbsent(rows[..|rows| - 1], name);
    }
  }

  /** Grouping keeps one list per path name that occurs, holding that path's waypoints in input order. */
  lemma {:induction false} GroupedContents(rows: seq<Row>)
    ensures Grouped(rows).Keys == Names(rows)
    ensures forall name :: name in Grouped(rows) ==> Grouped(rows)[name] == Named(rows, name)
  {
    if rows != [] {
      var front := rows[..|rows| - 1];
      GroupedContents(front);
      NamesOfFront(rows);
      forall x | x in Grouped(rows) ensures Grouped(rows)[x] == Named(rows, x) {
        if x !in Names(front) {
          NamedAbsent(front, x);
        }
      }
    }
  }

  /** The header line is skipped: the data lines of `header + "\n" + body` are the lines of `body`. */
  lemma HeaderSkipped(header: string, body: string)
    requires '\n' !in header
    ensures DataLines(header + "\n" + body) == Split(body, '\n')
  {
    SplitAfterSeparator(header, '\n', body);
  }

  lemma {:induction false} NamedNonEmpty(rows: seq<Row>, name: string)
    requires name in Names(rows)
    ensures Named(rows, name) != []
  {
    var front := rows[..|rows| - 1];
    if rows[|rows| - 1].0 != name {
      var i :| 0 <= i < |rows| && rows[i].0 == name;
      assert front[i] == rows[i];
      NamedNonEmpty(front, name);
    }
  }

  /** Entry `parsed[i]` keeps a row under path name `name`. */
  predicate KeptUnder(parsed: seq<Option<Row>>, i: int, name: string)
    requires 0 <= i < |parsed|
  {
    parsed[i].Some? && parsed[i].value.0 == name
  }

  /** A path name occurs among the kept rows exactly when some entry is kept under it. */
  lemma KeptNames(parsed: seq<Option<Row>>, name: string)
    ensures name in Names(Kept(parsed)) <==> exists i :: 0 <= i < |parsed| && KeptUnder(parsed, i, name)
  {
    if name in Names(Kept(parsed)) {
      KeptNamesSome(parsed, name);
    }
    if i :| 0 <= i < |parsed| && KeptUnder(parsed, i, name) {
      KeptNamesAt(parsed, name, i);
    }
  }

  lemma {:induction false} KeptNamesSome(parsed: seq<Option<Row>>, name: string)
    requires name in Names(Kept(parsed))
    ensures exists i :: 0 <= i < |parsed| && KeptUnder(parsed, i, name)
  {
    var front := parsed[..|parsed| - 1];
    var rows, frontRows := Kept(parsed), Kept(front);
    assert rows[..|frontRows|] == frontRows;
    var i :| 0 <= i < |rows| && rows[i].0 == name;
    if i < |frontRows| {
      assert frontRows[i] == rows[i];
      KeptNamesSome(front, name);
      var j :| 0 <= j < |front| && KeptUnder(front, j, name);
      assert parsed[j] == front[j];
      assert KeptUnder(parsed, j, name);
    } else {
      assert KeptUnder(parsed, |parsed| - 1, name);
    }
  }

  lemma {:induction false} KeptNamesAt(parsed: seq<Option<Row>>, name: string, i: nat)
    requires i < |parsed| && KeptUnder(parsed, i, name)
    ensures name in Names(Kept(parsed))
  {
    var front := parsed[..|parsed| - 1];
    var rows, frontRows := Kept(parsed), Kept(front);
    assert rows[..|frontRows|] == frontRows;
    if i < |front| {
      assert front[i] == parsed[i];
      KeptNamesAt(front, name, i);
      var k :| 0 <= k < |frontRows| && frontRows[k].0 == name;
      assert rows[k] == frontRows[k];
    } else {
      assert rows[|frontRows|].0 == name;
    }
  }

  /** Line `line` is kept, under path name `name`. */
  predicate KeptAs(line: string, defaultAltitude: real, name: string) {
    var row := ParseLine(line, defaultAltitude);
    row.Some? && row.value.0 == name
  }

  /** A path exists in the loaded data exactly when some data line is kept under its name. */
  lemma LoadedPathNames(csvData: string, defaultAltitude: real, name: string)
    ensures name in ParsedPaths(csvData, defaultAltitude)
            <==> exists i :: 0 <= i < |DataLines(csvData)| && KeptAs(DataLines(csvData)[i], defaultAltitude, name)
  {
    var lines := DataLines(csvData);
    var parsed := ParseLines(lines, defaultAltitude);
    GroupedContents(Kept(parsed));
    KeptNames(parsed, name);
    assert forall i :: 0 <= i < |lines| ==> (KeptAs(lines[i], defaultAltitude, name) <==> KeptUnder(parsed, i, name));
  }

  /**
   * Every loaded path is non-empty, ordered by timestamp, a permutation of the
   * waypoints its kept lines produced, and keeps their input order among equal
   * timestamps; with a non-zero default no waypoint has altitude 0.
   */
  lemma LoadedPath(csvData: string, defaultAltitude: real, name: string)
    requires name in ParsedPaths(csvData, defaultAltitude)
    ensures var path, rows := ParsedPaths(csvData, defaultAltitude)[name], Rows(DataLines(csvData), defaultAltitude);
            && path != []
            && SortedByTimestamp(path)
            && multiset(path) == multiset(Named(rows, name))
            && (forall ts :: WithTimestamp(path, ts) == WithTimestamp(Named(rows, name), ts))
            && (defaultAltitude != 0.0 ==> forall i :: 0 <= i < |path| ==> path[i].altitude != 0.0)
  {
    var rows := Rows(DataLines(csvData), defaultAltitude);
    var named := Named(rows, name);
    GroupedContents(rows);
    NamedNonEmpty(rows, name);
    forall ts ensures WithTimestamp(SortByTimestamp(named), ts) == WithTimestamp(named, ts) {
      SortByTimestampStable(named, ts);
    }
    assert |multiset(named)| == |named|;
    if defaultAltitude != 0.0 {
      RowsAltitude(DataLines(csvData), defaultAltitude);
      NamedAltitude(rows, name);
      var path := SortByTimestamp(named);
      forall i | 0 <= i < |path| ensures path[i].altitude != 0.0 {
        assert path[i] in multiset(named);
      }
    }
  }

  /** With a non-zero default, no kept row has altitude 0. */
  lemma RowsAltitude(lines: seq<string>, defaultAltitude: real)
    requires defaultAltitude != 0.0
    ensures forall i :: 0 <= i < |Rows(lines, defaultAltitude)| ==> Rows(lines, defaultAltitude)[i].1.altitude != 0.0
  {
    var parsed := ParseLines(lines, defaultAltitude);
    assert forall i :: 0 <= i < |parsed| && parsed[i].Some? ==> parsed[i].value.1.altitude != 0.0;
    KeptAltitude(parsed);
  }

  lemma {:induction false} KeptAltitude(parsed: seq<Option<Row>>)
    requires forall i :: 0 <= i < |parsed| && parsed[i].Some? ==> parsed[i].value.1.altitude != 0.0
    ensures forall i :: 0 <= i < |Kept(parsed)| ==> Kept(parsed)[i].1.altitude != 0.0
  {
    if parsed != [] {
      var front := parsed[..|parsed| - 1];
      assert forall i :: 0 <= i < |front| ==> front[i] == parsed[i];
      KeptAltitude(front);
    }
  }

  lemma {:induction false} NamedAltitude(rows: seq<Row>, name: string)
    requires forall i :: 0 <= i < |rows| ==> rows[i].1.altitude != 0.0
    ensures forall w :: w in Named(rows, name) ==> w.altitude != 0.0
  {
    if rows != [] {
      NamedAltitude(rows[..|rows| - 1], name);
    }
  }

  // ---------------------------------------------------------------------------
  // the order of the loaded path names

  /** The path names of `rows` in order of first appearance: the insertion order `Object.keys` reports. */
  function FirstSeen(rows: seq<Row>): (names: seq<string>) {
    if rows == [] then []
    else
      var front := FirstSeen(rows[..|rows| - 1]);
      var name := rows[|rows| - 1].0;
      if name in front then front else front + [name]
  }

  /** `Object.keys(flyoverData)` after loading `csvData`. */
  function PathNames(csvData: string, defaultAltitude: real): seq<string> {
    FirstSeen(Rows(DataLines(csvData), defaultAltitude))
  }

  /** Every path name is listed exactly once. */
  lemma {:induction false} FirstSeenNames(rows: seq<Row>)
    ensures forall name :: name in FirstSeen(rows) <==> name in Names(rows)
    ensures forall i, j :: 0 <= i < j < |FirstSeen(rows)| ==> FirstSeen(rows)[i] != FirstSeen(rows)[j]
  {
    if rows != [] {
      FirstSeenNames(rows[..|rows| - 1]);
      NamesOfFront(rows);
    }
  }

  /** The listed path names are exactly the keys of the loaded data, each once. */
  lemma PathNamesAreKeys(csvData: string, defaultAltitude: real)
    ensures var names := PathNames(csvData, defaultAltitude);
            && (forall name :: name in names <==> name in ParsedPaths(csvData, defaultAltitude))
            && (forall i, j :: 0 <= i < j < |names| ==> names[i] != names[j])
  {
    var rows := Rows(DataLines(csvData), defaultAltitude);
    FirstSeenNames(rows);
    GroupedContents(rows);
  }
}
