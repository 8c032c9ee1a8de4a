/**
 * The data generator, `generate_flyover_data.js`: for each refuge it fetches
 * the road or trail features, turns every feature's geometry into CSV rows
 * (one path per feature name, timestamps counting from 1, altitude 300),
 * names the file after the refuge's id, and upserts a catalogue entry into
 * the existing list of refuges.
 */
module Generator {
  import opened Wrappers
  import opened JsText
  import opened RefugeId
  import opened Waypoints
  import Csv

  // ---------------------------------------------------------------------------
  // where the features come from

  datatype DataSource = Roads | Trails

  /** `cccode.startsWith('FF')` selects the roads service, anything else the trails service. */
  function DataSourceFor(cccode: string): (source: DataSource)
    ensures source == Roads <==> |cccode| >= 2 && cccode[0] == 'F' && cccode[1] == 'F'
  {
    if |cccode| >= 2 && cccode[..2] == "FF" then Roads else Trails
  }

  // ---------------------------------------------------------------------------
  // features

  /** The three name properties a feature may carry; `None` is a missing or null property. */
  datatype Properties = Properties(routeName: Option<string>, trName: Option<string>, natRteId: Option<string>)

  /** JavaScript truthiness of a string property. */
  predicate Truthy(field: Option<string>) {
    field.Some? && field.value != []
  }

  datatype Position = Position(longitude: real, latitude: real)

  datatype Geometry =
    | LineString(coordinates: seq<Position>)
    | MultiLineString(lines: seq<seq<Position>>)
    | OtherGeometry

  /** A feature as the service sends it; `None` is a null or missing `properties` or `geometry`. */
  datatype Feature = Feature(properties: Option<Properties>, geometry: Option<Geometry>)

  /**
   * A feature the loop can read: `feature.properties.ROUTE_NAME` throws when
   * `properties` is null and `feature.geometry.type` when `geometry` is.
   */
  predicate Complete(feature: Feature) {
    feature.properties.Some? && feature.geometry.Some?
  }

  predicate AllComplete(features: seq<Feature>) {
    forall i :: 0 <= i < |features| ==> Complete(features[i])
  }

  const UnknownPath := "Unknown Path"

  /** `ROUTE_NAME || TRNAME || NAT_RTE_ID || 'Unknown Path'`. */
  function PathName(p: Properties): (name: string)
    ensures name != []
    ensures Truthy(p.routeName) ==> name == p.routeName.value
    ensures !Truthy(p.routeName) && Truthy(p.trName) ==> name == p.trName.value
    ensures !Truthy(p.routeName) && !Truthy(p.trName) && Truthy(p.natRteId) ==> name == p.natRteId.value
    ensures !Truthy(p.routeName) && !Truthy(p.trName) && !Truthy(p.natRteId) ==> name == UnknownPath
  {
    if Truthy(p.routeName) then p.routeName.value
    else if Truthy(p.trName) then p.trName.value
    else if Truthy(p.natRteId) then p.natRteId.value
    else UnknownPath
  }

  /** `pathName.replace(/,/g, ' ')`. */
  function CleanPathName(name: string): (clean: string)
    ensures |clean| == |name| && ',' !in clean
    ensures forall i :: 0 <= i < |name| && name[i] != ',' ==> clean[i] == name[i]
    ensures forall i :: 0 <= i < |name| && name[i] == ',' ==> clean[i] == ' '
  {
    seq(|name|, i requires 0 <= i < |name| => if name[i] == ',' then ' ' else name[i])
  }

  /** Cleaning a name that has no comma changes nothing, so cleaning twice is cleaning once. */
  lemma CleanPathNameIdempotent(name: string)
    ensures CleanPathName(CleanPathName(name)) == CleanPathName(name)
  {
    var clean := CleanPathName(name);
    forall i | 0 <= i < |clean| ensures CleanPathName(clean)[i] == clean[i] {
      assert clean[i] in clean;
    }
  }

  /** The lines of a MultiLineString one after another, in order. */
  function Concat(lines: seq<seq<Position>>): seq<Position>
    decreases |lines|
  {
    if lines == [] then [] else Concat(lines[..|lines| - 1]) + lines[|lines| - 1]
  }

  lemma {:induction false} ConcatAppend(a: seq<seq<Position>>, b: seq<seq<Position>>)
    ensures Concat(a + b) == Concat(a) + Concat(b)
    decreases |b|
  {
    if b == [] {
      assert a + b == a;
    } else {
      var n := |b| - 1;
      var ab := a + b;
      assert ab[..|ab| - 1] == a + b[..n] && ab[|ab| - 1] == b[n];
      ConcatAppend(a, b[..n]);
      assert Concat(ab) == Concat(a + b[..n]) + b[n];
      assert Concat(b) == Concat(b[..n]) + b[n];
    }
  }

  /** Line `k` sits in the flattened coordinates right after the lines before it and before the lines after it. */
  lemma ConcatAt(lines: seq<seq<Position>>, k: nat)
    requires k < |lines|
    ensures Concat(lines) == Concat(lines[..k]) + lines[k] + Concat(lines[k + 1..])
  {
    var front, back := lines[..k + 1], lines[k + 1..];
    assert lines == front + back;
    ConcatAppend(front, back);
    assert front[..k] == lines[..k];
  }

  /** The coordinates a geometry contributes. */
  function CoordinatesOf(g: Geometry): seq<Position> {
    match g
    case LineString(coordinates) => coordinates
    case MultiLineString(lines) => Concat(lines)
    case OtherGeometry => []
  }

  /** The coordinate extraction as the source writes it: `coordinates = coordinates.concat(line)` for each line. */
  method Coordinates(g: Geometry) returns (coordinates: seq<Position>)
    ensures coordinates == CoordinatesOf(g)
  {
    coordinates := [];
    if g.LineString? {
      coordinates := g.coordinates;
    } else if g.MultiLineString? {
      var i := 0;
      while i < |g.lines|
        invariant 0 <= i <= |g.lines|
        invariant coordinates == Concat(g.lines[..i])
      {
        assert g.lines[..i + 1][..i] == g.lines[..i];
        coordinates := coordinates + g.lines[i];
        i := i + 1;
      }
      assert g.lines[..i] == g.lines;
    }
  }

  // ---------------------------------------------------------------------------
  // CSV rows

  /** The altitude every generated row carries. */
  const Altitude: nat := 300

  /** `path_name,longitude,latitude,altitude,timestamp`. */
  const Header := "path_name," + "longitude," + "latitude," + "altitude," + "timestamp"

  /** One generated row: the cleaned path name, the position, the altitude and the timestamp. */
  datatype CsvRow = CsvRow(pathName: string, position: Position, altitude: nat, timestamp: nat)

  /** The rows of one feature: its coordinates in order, at altitude 300, with timestamps 1, 2, ... */
  function FeatureRows(pathName: string, coordinates: seq<Position>): (rows: seq<CsvRow>)
    ensures |rows| == |coordinates|
    ensures forall i :: 0 <= i < |rows| ==> rows[i] == CsvRow(pathName, coordinates[i], Altitude, i + 1)
  {
    seq(|coordinates|, i requires 0 <= i < |coordinates| => CsvRow(pathName, coordinates[i], Altitude, i + 1))
  }

  /** The rows of a feature as the generator names it. */
  function RowsOf(feature: Feature): seq<CsvRow>
    requires Complete(feature)
  {
    FeatureRows(CleanPathName(PathName(feature.properties.value)), CoordinatesOf(feature.geometry.value))
  }

  /** The rows of all features, feature after feature. */
  function AllRows(features: seq<Feature>): seq<CsvRow>
    requires AllComplete(features)
    decreases |features|
  {
    if features == [] then []
    else AllRows(features[..|features| - 1]) + RowsOf(features[|features| - 1])
  }

  /** The five fields of `${cleanPathName},${lon},${lat},${alt},${timestamp}`. */
  function Fields(row: CsvRow, show: real -> string): seq<string> {
    [row.pathName, show(row.position.longitude), show(row.position.latitude), NatToString(row.altitude), NatToString(row.timestamp)]
  }

  /**
   * The line of one row: its fields joined by commas. JavaScript's
   * number-to-string conversion of a coordinate is the parameter `show`.
   */
  function RowLine(row: CsvRow, show: real -> string): string {
    Join(Fields(row, show), ',')
  }

  /** A line per row, in order. */
  function Lines(rows: seq<CsvRow>, show: real -> string): (lines: seq<string>)
    ensures |lines| == |rows|
  {
    seq(|rows|, i requires 0 <= i < |rows| => RowLine(rows[i], show))
  }

  lemma LinesAppend(a: seq<CsvRow>, b: seq<CsvRow>, show: real -> string)
    ensures Lines(a + b, show) == Lines(a, show) + Lines(b, show)
  {
    assert forall i :: 0 <= i < |a + b| ==> Lines(a + b, show)[i] == (Lines(a, show) + Lines(b, show))[i];
  }

  /**
   * The feature loop of `processRefuge`: `csvLines` starts with the header
   * and gets one line per coordinate, `totalPoints` counts the coordinates.
   * `failed` is the exception a feature without properties or geometry
   * throws, which leaves the loop at that feature.
   */
  method ProcessFeatures(features: seq<Feature>, show: real -> string)
    returns (csvLines: seq<string>, totalPoints: nat, failed: bool)
    ensures failed <==> !AllComplete(features)
    ensures !failed ==> csvLines == [Header] + Lines(AllRows(features), show)
    ensures !failed ==> totalPoints == |AllRows(features)| == |csvLines| - 1
  {
    csvLines := [Header];
    totalPoints := 0;
    failed := false;
    var f := 0;
    while f < |features|
      invariant 0 <= f <= |features|
      invariant AllComplete(features[..f])
      invariant csvLines == [Header] + Lines(AllRows(features[..f]), show)
      invariant totalPoints == |AllRows(features[..f])|
    {
      if !Complete(features[f]) {
        failed := true;
        return;
      }
      CompleteStep(features, f);
      var lines, points := PushFeature(csvLines, totalPoints, features[f], show);
      AllRowsStep(features, f);
      LinesStep(AllRows(features[..f]), RowsOf(features[f]), show, csvLines, totalPoints, lines, points);
      csvLines, totalPoints := lines, points;
      f := f + 1;
    }
    assert features[..f] == features;
  }

  lemma CompleteStep(features: seq<Feature>, f: nat)
    requires f < |features| && AllComplete(features[..f]) && Complete(features[f])
    ensures AllComplete(features[..f + 1])
  {
    assert forall i :: 0 <= i < f ==> features[..f + 1][i] == features[..f][i];
  }

  /** The body of the feature loop: the cleaned path name, the flattened coordinates and their lines. */
  method PushFeature(csvLines: seq<string>, totalPoints: nat, feature: Feature, show: real -> string)
    returns (lines: seq<string>, points: nat)
    requires Complete(feature)
    ensures lines == csvLines + Lines(RowsOf(feature), show)
    ensures points == totalPoints + |RowsOf(feature)|
  {
    var cleanPathName := CleanPathName(PathName(feature.properties.value));
    var coordinates := Coordinates(feature.geometry.value);
    lines, points := PushRows(csvLines, totalPoints, cleanPathName, coordinates, show);
  }

  /**
   * The inner loop of `processRefuge` for one feature: a line per coordinate
   * with the timestamp counting up from 1, and `totalPoints` counting along.
   */
  method PushRows(csvLines: seq<string>, totalPoints: nat, cleanPathName: string, coordinates: seq<Position>, show: real -> string)
    returns (lines: seq<string>, points: nat)
    ensures lines == csvLines + Lines(FeatureRows(cleanPathName, coordinates), show)
    ensures points == totalPoints + |coordinates|
  {
    lines, points := csvLines, totalPoints;
    var timestamp := 1;
    var c := 0;
    while c < |coordinates|
      invariant 0 <= c <= |coordinates|
      invariant timestamp == c + 1
      invariant lines == csvLines + Lines(FeatureRows(cleanPathName, coordinates)[..c], show)
      invariant points == totalPoints + c
    {
      EmitStep(cleanPathName, coordinates, c, show);
      lines := lines + [RowLine(CsvRow(cleanPathName, coordinates[c], Altitude, timestamp), show)];
      timestamp := timestamp + 1;
      points := points + 1;
      c := c + 1;
    }
    assert FeatureRows(cleanPathName, coordinates)[..c] == FeatureRows(cleanPathName, coordinates);
  }

  lemma EmitStep(pathName: string, coordinates: seq<Position>, c: nat, show: real -> string)
    requires c < |coordinates|
    ensures Lines(FeatureRows(pathName, coordinates)[..c + 1], show)
         == Lines(FeatureRows(pathName, coordinates)[..c], show) + [RowLine(CsvRow(pathName, coordinates[c], Altitude, c + 1), show)]
  {
    var rows := FeatureRows(pathName, coordinates);
    assert rows[..c + 1] == rows[..c] + [rows[c]];
    LinesAppend(rows[..c], [rows[c]], show);
  }

  /** One more feature keeps the loop invariant of `ProcessFeatures`. */
  lemma LinesStep(before: seq<CsvRow>, rows: seq<CsvRow>, show: real -> string,
                  csvLines: seq<string>, totalPoints: nat, lines: seq<string>, points: nat)
    requires csvLines == [Header] + Lines(before, show) && totalPoints == |before|
    requires lines == csvLines + Lines(rows, show) && points == totalPoints + |rows|
    ensures lines == [Header] + Lines(before + rows, show) && points == |before + rows|
  {
    LinesAppend(before, rows, show);
    assert lines == [Header] + (Lines(before, show) + Lines(rows, show));
  }

  lemma AllRowsStep(features: seq<Feature>, f: nat)
    requires f < |features| && AllComplete(features[..f]) && AllComplete(features[..f + 1])
    ensures AllRows(features[..f + 1]) == AllRows(features[..f]) + RowsOf(features[f])
  {
    assert features[..f + 1][..f] == features[..f];
  }

  // ---------------------------------------------------------------------------
  // the generated file, read back by the player's loader

  /** `show` writes `x` as text that `parseFloat` reads back and that holds no comma or line break. */
  predicate ShowsBack(show: real -> string, x: real) {
    show(x) != [] && OneField(show(x)) && ParseFloat(show(x)) == Some(x)
  }

  /** A text that fits in one field of one line: no comma and no line break. */
  predicate OneField(field: string) {
    ',' !in field && '\n' !in field
  }

  /**
   * A row the CSV format can carry: a non-empty name without comma or line
   * break, readable coordinates and a non-zero altitude (the loader reads a
   * zero altitude as its default).
   */
  predicate Writable(row: CsvRow, show: real -> string) {
    && row.pathName != [] && OneField(row.pathName) && row.altitude != 0
    && ShowsBack(show, row.position.longitude) && ShowsBack(show, row.position.latitude)
  }

  /** The (path name, waypoint) pair the player's loader makes of a generated row. */
  function Loaded(row: CsvRow): Csv.Row {
    (row.pathName, Waypoint(Finite(row.position.longitude), Finite(row.position.latitude), row.altitude as real, row.timestamp))
  }

  lemma DigitsPlain(d: string)
    requires AllDigits(d)
    ensures OneField(d)
  {
    forall i | 0 <= i < |d| ensures d[i] != ',' && d[i] != '\n' {
      assert IsDigit(d[i]);
    }
  }

  /** The header is one line. */
  lemma HeaderOneLine()
    ensures '\n' !in Header
  {
    assert '\n' !in "path_name," && '\n' !in "longitude," && '\n' !in "latitude,";
    assert '\n' !in "altitude," && '\n' !in "timestamp";
  }

  /** A generated line splits back into its five fields and is one line. */
  lemma RowLineFields(row: CsvRow, show: real -> string)
    requires OneField(row.pathName)
    requires OneField(show(row.position.longitude)) && OneField(show(row.position.latitude))
    ensures Split(RowLine(row, show), ',') == Fields(row, show)
    ensures '\n' !in RowLine(row, show)
  {
    var fields := Fields(row, show);
    DigitsPlain(fields[3]);
    DigitsPlain(fields[4]);
    assert forall i :: 0 <= i < |fields| ==> OneField(fields[i]);
    SplitJoin(fields, ',');
    JoinWithout(fields, ',', '\n');
  }

  /** The player's loader keeps a generated line, with its name, coordinates, altitude and timestamp. */
  lemma RowLineLoads(row: CsvRow, show: real -> string, defaultAltitude: real)
    requires Writable(row, show)
    ensures Csv.ParseLine(RowLine(row, show), defaultAltitude) == Some(Loaded(row))
  {
    var lon, lat := show(row.position.longitude), show(row.position.latitude);
    var alt, ts := NatToString(row.altitude), NatToString(row.timestamp);
    RowLineFields(row, show);
    ParseFloatOfNatToString(row.altitude);
    ParseIntOfNatToString(row.timestamp);
    assert Csv.CoordinateOf(lon) == Finite(row.position.longitude);
    assert Csv.CoordinateOf(lat) == Finite(row.position.latitude);
    assert Csv.AltitudeOf(Some(alt), defaultAltitude) == row.altitude as real;
    assert Csv.TimestampOf(Some(ts)) == row.timestamp;
    FiveFields(RowLine(row, show), Fields(row, show), defaultAltitude);
  }

  /** A line of five fields, the first three non-empty, is kept with the waypoint its fields describe. */
  lemma FiveFields(line: string, fields: seq<string>, defaultAltitude: real)
    requires Split(line, ',') == fields && |fields| == 5
    requires fields[0] != [] && fields[1] != [] && fields[2] != []
    ensures Csv.ParseLine(line, defaultAltitude)
         == Some((fields[0], Waypoint(Csv.CoordinateOf(fields[1]), Csv.CoordinateOf(fields[2]),
                                      Csv.AltitudeOf(Some(fields[3]), defaultAltitude), Csv.TimestampOf(Some(fields[4])))))
  {
    assert Csv.Field(fields, 3) == Some(fields[3]) && Csv.Field(fields, 4) == Some(fields[4]);
  }

  /** A list where every line is kept keeps every row, in order. */
  lemma {:induction false} KeptAll(parsed: seq<Option<Csv.Row>>, rows: seq<Csv.Row>)
    requires |parsed| == |rows|
    requires forall i :: 0 <= i < |parsed| ==> parsed[i] == Some(rows[i])
    ensures Csv.Kept(parsed) == rows
    decreases |parsed|
  {
    if parsed != [] {
      var n := |parsed| - 1;
      KeptAll(parsed[..n], rows[..n]);
      assert rows == rows[..n] + [rows[n]];
    }
  }

  /** The lines after the header of a generated file are the row lines. */
  lemma GeneratedDataLines(lines: seq<string>)
    requires forall i :: 0 <= i < |lines| ==> '\n' !in lines[i]
    ensures Csv.DataLines(Join([Header] + lines, '\n')) == lines
  {
    HeaderOneLine();
    if lines == [] {
      SplitWithoutSeparator(Header, '\n');
      assert Join([Header] + lines, '\n') == Header;
    } else {
      assert ([Header] + lines)[1..] == lines;
      assert Join([Header] + lines, '\n') == Header + "\n" + Join(lines, '\n');
      Csv.HeaderSkipped(Header, Join(lines, '\n'));
      SplitJoin(lines, '\n');
    }
  }

  /**
   * A generated file, read back by the player's loader (`loadFlyoverData`,
   * whatever its default altitude), yields exactly the generated rows in
   * order: the header is skipped and no row is dropped.
   */
  lemma GeneratedFileLoads(rows: seq<CsvRow>, show: real -> string, defaultAltitude: real)
    requires forall i :: 0 <= i < |rows| ==> Writable(rows[i], show)
    ensures var loaded := Csv.Rows(Csv.DataLines(Join([Header] + Lines(rows, show), '\n')), defaultAltitude);
            |loaded| == |rows| && forall i :: 0 <= i < |rows| ==> loaded[i] == Loaded(rows[i])
  {
    var lines := Lines(rows, show);
    var loaded := seq(|rows|, i requires 0 <= i < |rows| => Loaded(rows[i]));
    forall i | 0 <= i < |rows| ensures Csv.ParseLine(lines[i], defaultAltitude) == Some(loaded[i]) && '\n' !in lines[i] {
      RowLineFields(rows[i], show);
      RowLineLoads(rows[i], show, defaultAltitude);
    }
    GeneratedDataLines(lines);
    KeptAll(Csv.ParseLines(lines, defaultAltitude), loaded);
  }

  // ---------------------------------------------------------------------------
  // the display name

  const RefugeWord := "Refuge"
  const WildlifeRefuge := "Wildlife " + RefugeWord
  const NationalWildlifeRefuge := "National " + WildlifeRefuge

  /** `p` occurs nowhere in `s`. */
  ghost predicate Lacks(s: string, p: string) {
    forall j: nat :: !OccursAt(s, p, j)
  }

  /**
   * `name.replace('National Wildlife Refuge', 'NWR').replace('Wildlife Refuge', 'NWR').replace('Refuge', 'NWR')`:
   * never longer than the name, and the name itself when it holds no "Refuge".
   */
  function Abbreviate(name: string): (r: string)
    ensures |r| <= |name|
    ensures Lacks(name, RefugeWord) ==> r == name
  {
    NoPatternFound(name);
    ReplaceFirst(ReplaceFirst(ReplaceFirst(name, NationalWildlifeRefuge, "NWR"), WildlifeRefuge, "NWR"), RefugeWord, "NWR")
  }

  /** An occurrence of `a + p` holds an occurrence of `p`. */
  lemma OccursInside(s: string, a: string, p: string, i: nat)
    requires OccursAt(s, a + p, i)
    ensures OccursAt(s, p, i + |a|)
  {
    assert s[i + |a|..i + |a| + |p|] == s[i..i + |a + p|][|a|..];
    assert (a + p)[|a|..] == p;
  }

  /** A text without `p` holds no longer pattern ending in `p`. */
  lemma LacksInside(s: string, a: string, p: string)
    ensures Lacks(s, p) ==> Lacks(s, a + p)
  {
    if Lacks(s, p) {
      forall j: nat ensures !OccursAt(s, a + p, j) {
        if OccursAt(s, a + p, j) {
          OccursInside(s, a, p, j);
          assert false;
        }
      }
    }
  }

  /** A name without "Refuge" holds none of the three patterns. */
  lemma NoPatternFound(name: string)
    ensures Lacks(name, RefugeWord) ==>
              && IndexOf(name, NationalWildlifeRefuge).None?
              && IndexOf(name, WildlifeRefuge).None?
              && IndexOf(name, RefugeWord).None?
  {
    LacksInside(name, "National " + "Wildlife ", RefugeWord);
    LacksInside(name, "Wildlife ", RefugeWord);
    assert "National " + "Wildlife " + RefugeWord == NationalWildlifeRefuge;
  }

  /** Where the pattern sits after a prefix, the text there is the pattern. */
  lemma OccursAfter(a: string, p: string, b: string)
    ensures OccursAt(a + p + b, p, |a|)
  {
    assert (a + p + b)[|a|..|a| + |p|] == p;
  }

  /** An occurrence starts with the pattern's first character. */
  lemma OccursFirst(s: string, p: string, i: nat)
    requires OccursAt(s, p, i) && p != []
    ensures s[i] == p[0]
  {
    assert s[i..i + |p|][0] == s[i];
  }

  /** A pattern that occurs at `i` and nowhere else is found at `i`. */
  lemma OnlyOccurrence(s: string, p: string, i: nat)
    requires OccursAt(s, p, i)
    requires forall j: nat :: OccursAt(s, p, j) ==> j == i
    ensures IndexOf(s, p) == Some(i)
  {
  }

  /**
   * With no "Refuge" in `a`, every "Refuge" in `a + t`, for a `t` that starts
   * with a space, lies inside `t`: none straddles the space.
   */
  lemma RefugeInTail(a: string, t: string, p: nat)
    requires Lacks(a, RefugeWord) && t != [] && t[0] == ' '
    requires OccursAt(a + t, RefugeWord, p)
    ensures |a| < p && OccursAt(t, RefugeWord, p - |a|)
  {
    OccursSplit(a, t, RefugeWord, p);
    assert ' ' !in RefugeWord;
  }

  /**
   * An occurrence of `w` in `a + t` at `p` lies inside `a`, or covers the
   * first character of `t`, or lies inside `t`.
   */
  lemma OccursSplit(a: string, t: string, w: string, p: nat)
    requires OccursAt(a + t, w, p)
    ensures p + |w| <= |a| ==> OccursAt(a, w, p)
    ensures p <= |a| < p + |w| && t != [] ==> t[0] in w
    ensures |a| <= p ==> OccursAt(t, w, p - |a|)
  {
    var s := a + t;
    if p + |w| <= |a| {
      assert a[p..p + |w|] == s[p..p + |w|];
    }
    if p <= |a| < p + |w| && t != [] {
      assert s[p..p + |w|][|a| - p] == s[|a|] == t[0];
    }
    if |a| <= p {
      assert t[p - |a|..p - |a| + |w|] == s[p..p + |w|];
    }
  }

  /**
   * In `a + lead + "Refuge"`, with no "Refuge" in `a` and a `lead` that starts
   * with a space and holds no capital R, the only "Refuge" is the last one.
   */
  lemma OnlyTrailingRefuge(a: string, lead: string, j: nat)
    requires Lacks(a, RefugeWord) && lead != [] && lead[0] == ' ' && 'R' !in lead
    requires OccursAt(a + lead + RefugeWord, RefugeWord, j)
    ensures j == |a| + |lead|
  {
    var t := lead + RefugeWord;
    assert a + lead + RefugeWord == a + t;
    RefugeInTail(a, t, j);
    var k := j - |a|;
    if k < |lead| {
      assert lead[k] in lead;
      assert t[k] == lead[k];
      OccursFirst(t, RefugeWord, k);
      assert false;
    }
  }

  /** "<a> NWR" holds neither "Wildlife Refuge" nor "Refuge" when `a` holds no "Refuge". */
  lemma NoRefugeLeft(a: string)
    requires Lacks(a, RefugeWord)
    ensures IndexOf(a + " NWR", WildlifeRefuge).None? && IndexOf(a + " NWR", RefugeWord).None?
  {
    var s := a + " NWR";
    match IndexOf(s, WildlifeRefuge)
    case Some(i) =>
      OccursInside(s, "Wildlife ", RefugeWord, i);
      RefugeInTail(a, " NWR", i + 9);
      assert false;
    case None =>
    match IndexOf(s, RefugeWord)
    case Some(i) =>
      RefugeInTail(a, " NWR", i);
      assert false;
    case None =>
  }

  /**
   * "<a> National Wildlife Refuge" is shown as "<a> NWR" whenever `a` holds
   * no "Refuge" (so no other replacement can find a match).
   */
  lemma AbbreviateNational(a: string)
    requires Lacks(a, RefugeWord)
    ensures Abbreviate(a + " " + NationalWildlifeRefuge) == a + " NWR"
  {
    var s := a + " " + NationalWildlifeRefuge;
    var lead := " " + "National " + "Wildlife ";
    assert 'R' !in lead by {
      assert 'R' !in " " && 'R' !in "National " && 'R' !in "Wildlife ";
    }
    assert s == a + lead + RefugeWord;
    forall j: nat | OccursAt(s, NationalWildlifeRefuge, j) ensures j == |a| + 1 {
      OccursInside(s, "National " + "Wildlife ", RefugeWord, j);
      OnlyTrailingRefuge(a, lead, j + 18);
    }
    OccursAfter(a + " ", NationalWildlifeRefuge, []);
    assert a + " " + NationalWildlifeRefuge + [] == s;
    OnlyOccurrence(s, NationalWildlifeRefuge, |a| + 1);
    assert s[..|a| + 1] + "NWR" + s[|a| + 1 + |NationalWildlifeRefuge|..] == a + " NWR";
    NoRefugeLeft(a);
  }

  /**
   * "<a> Wildlife Refuge" is shown as "<a> NWR" whenever `a` holds no
   * "Refuge" and the name holds no "National Wildlife Refuge" (`a` does not
   * end in " National").
   */
  lemma AbbreviateWildlife(a: string)
    requires Lacks(a, RefugeWord) && Lacks(a + " " + WildlifeRefuge, NationalWildlifeRefuge)
    ensures Abbreviate(a + " " + WildlifeRefuge) == a + " NWR"
  {
    var s := a + " " + WildlifeRefuge;
    var lead := " " + "Wildlife ";
    assert 'R' !in lead by {
      assert 'R' !in " " && 'R' !in "Wildlife ";
    }
    assert s == a + lead + RefugeWord;
    assert IndexOf(s, NationalWildlifeRefuge).None?;
    forall j: nat | OccursAt(s, WildlifeRefuge, j) ensures j == |a| + 1 {
      OccursInside(s, "Wildlife ", RefugeWord, j);
      OnlyTrailingRefuge(a, lead, j + 9);
    }
    OccursAfter(a + " ", WildlifeRefuge, []);
    assert a + " " + WildlifeRefuge + [] == s;
    OnlyOccurrence(s, WildlifeRefuge, |a| + 1);
    assert s[..|a| + 1] + "NWR" + s[|a| + 1 + |WildlifeRefuge|..] == a + " NWR";
    NoRefugeLeft(a);
  }

  /**
   * "<a> Refuge" is shown as "<a> NWR" whenever `a` holds no "Refuge" and
   * the name holds no "Wildlife Refuge" (`a` does not end in " Wildlife").
   */
  lemma AbbreviateRefuge(a: string)
    requires Lacks(a, RefugeWord) && Lacks(a + " " + RefugeWord, WildlifeRefuge)
    ensures Abbreviate(a + " " + RefugeWord) == a + " NWR"
  {
    var s := a + " " + RefugeWord;
    LacksInside(s, "National ", WildlifeRefuge);
    assert IndexOf(s, NationalWildlifeRefuge).None?;
    assert IndexOf(s, WildlifeRefuge).None?;
    assert 'R' !in " ";
    forall j: nat | OccursAt(s, RefugeWord, j) ensures j == |a| + 1 {
      OnlyTrailingRefuge(a, " ", j);
    }
    OccursAfter(a + " ", RefugeWord, []);
    assert a + " " + RefugeWord + [] == s;
    OnlyOccurrence(s, RefugeWord, |a| + 1);
    assert s[..|a| + 1] + "NWR" + s[|a| + 1 + |RefugeWord|..] == a + " NWR";
  }

  // ---------------------------------------------------------------------------
  // one refuge

  /** An entry of `refugesToProcess`. */
  datatype RefugeInfo = RefugeInfo(name: string, cccode: string)

  /** A catalogue entry; the map centre is not part of this model. */
  datatype RefugeEntry = RefugeEntry(id: string, name: string, cccode: string, file: string, zoom: nat)

  /** What `processRefuge` produces: the catalogue entry and the text written to the refuge's CSV file. */
  datatype Processed = Processed(entry: RefugeEntry, csvText: string)

  const DefaultZoom: nat := 11

  /** The entry `processRefuge` returns for a refuge with data. */
  function EntryFor(info: RefugeInfo): (entry: RefugeEntry)
    ensures IsId(entry.id) && entry.file == "data/" + entry.id + ".csv"
    ensures entry.id == GenerateId(info.name) && entry.name == Abbreviate(info.name)
    ensures entry.cccode == info.cccode && entry.zoom == DefaultZoom
  {
    var refugeId := GenerateId(info.name);
    RefugeEntry(refugeId, Abbreviate(info.name), info.cccode, "data/" + (refugeId + ".csv"), DefaultZoom)
  }

  /**
   * `processRefuge`. The service call is the parameter `fetch`, given the
   * source `DataSourceFor` picks and the code; `None` stands for missing
   * data, a missing `features` list and a failed request alike, all of
   * which end in `null`. A feature without properties or geometry throws,
   * and the `catch` turns that into `null` as well.
   */
  method ProcessRefuge(info: RefugeInfo, fetch: (DataSource, string) -> Option<seq<Feature>>, show: real -> string)
    returns (result: Option<Processed>)
    ensures var data := fetch(DataSourceFor(info.cccode), info.cccode);
            result.None? <==> data.None? || !AllComplete(data.value) || AllRows(data.value) == []
    ensures var data := fetch(DataSourceFor(info.cccode), info.cccode);
            result.Some? ==> AllComplete(data.value)
                             && result.value == Processed(EntryFor(info), Join([Header] + Lines(AllRows(data.value), show), '\n'))
  {
    var data := fetch(DataSourceFor(info.cccode), info.cccode);
    if data.None? || |data.value| == 0 {
      return None;
    }
    var csvLines, totalPoints, failed := ProcessFeatures(data.value, show);
    if failed {
      return None;
    }
    if totalPoints == 0 {
      return None;
    }
    result := Some(Processed(EntryFor(info), Join(csvLines, '\n')));
  }

  /** The rows of every feature carry a name the CSV format can hold: non-empty and without comma. */
  lemma {:induction false} AllRowsNamed(features: seq<Feature>)
    requires AllComplete(features)
    ensures forall i :: 0 <= i < |AllRows(features)| ==>
              AllRows(features)[i].pathName != [] && ',' !in AllRows(features)[i].pathName
    decreases |features|
  {
    if features != [] {
      AllRowsNamed(features[..|features| - 1]);
    }
  }

  // ---------------------------------------------------------------------------
  // the catalogue

  /** `existingRefuges.findIndex(r => r.id === id)`, with `None` for -1. */
  function FindIndex(refuges: seq<RefugeEntry>, id: string): (index: Option<nat>)
    ensures index.Some? ==> index.value < |refuges| && refuges[index.value].id == id
    ensures forall j :: 0 <= j < |refuges| && (index.None? || j < index.value) ==> refuges[j].id != id
    decreases |refuges|
  {
    if refuges == [] then None
    else if refuges[0].id == id then Some(0)
    else match FindIndex(refuges[1..], id)
      case None => None
      case Some(k) => Some(k + 1)
  }

  /**
   * The list after one upsert. When an entry has the same id, the first such
   * entry is replaced in place and every other entry stays where it was;
   * otherwise the entry is appended. Either way the list holds the entry.
   */
  function Upserted(refuges: seq<RefugeEntry>, entry: RefugeEntry): (r: seq<RefugeEntry>)
    ensures |refuges| <= |r| <= |refuges| + 1 && entry in r
    ensures (exists k :: 0 <= k < |refuges| && refuges[k].id == entry.id) ==> |r| == |refuges|
    ensures (forall k :: 0 <= k < |refuges| ==> refuges[k].id != entry.id) ==> r == refuges + [entry]
    ensures forall k :: 0 <= k < |refuges| && refuges[k].id == entry.id && (forall i :: 0 <= i < k ==> refuges[i].id != entry.id)
                        ==> r[k] == entry
    ensures forall j :: 0 <= j < |refuges| && refuges[j].id != entry.id ==> r[j] == refuges[j]
    ensures forall j :: 0 <= j < |refuges| && (exists i :: 0 <= i < j && refuges[i].id == entry.id) ==> r[j] == refuges[j]
  {
    match FindIndex(refuges, entry.id)
    case Some(k) =>
      assert refuges[k := entry][k] == entry;
      refuges[k := entry]
    case None =>
      assert (refuges + [entry])[|refuges|] == entry;
      refuges + [entry]
  }

  /**
   * The list after the upserts of `main`, in order; a `null` result changes
   * nothing, and each upsert adds at most one entry.
   */
  function UpsertAll(refuges: seq<RefugeEntry>, results: seq<Option<RefugeEntry>>): (r: seq<RefugeEntry>)
    ensures |refuges| <= |r| <= |refuges| + |results|
    decreases |results|
  {
    if results == [] then refuges
    else
      var before := UpsertAll(refuges, results[..|results| - 1]);
      match results[|results| - 1]
      case Some(entry) => Upserted(before, entry)
      case None => before
  }

  /** No two entries share an id. */
  predicate UniqueIds(refuges: seq<RefugeEntry>) {
    forall i, j :: 0 <= i < j < |refuges| ==> refuges[i].id != refuges[j].id
  }

  /** Upserting keeps the ids unique. */
  lemma UpsertedUnique(refuges: seq<RefugeEntry>, entry: RefugeEntry)
    requires UniqueIds(refuges)
    ensures UniqueIds(Upserted(refuges, entry))
  {
    var r := Upserted(refuges, entry);
    match FindIndex(refuges, entry.id)
    case Some(k) =>
      forall i, j | 0 <= i < j < |r| ensures r[i].id != r[j].id {
        if i != k && j != k {
          assert r[i] == refuges[i] && r[j] == refuges[j];
        }
      }
    case None =>
      forall i, j | 0 <= i < j < |r| ensures r[i].id != r[j].id {
        if j < |refuges| {
          assert r[i] == refuges[i] && r[j] == refuges[j];
        }
      }
  }

  /** Running `main`'s loop over a list with unique ids keeps them unique. */
  lemma {:induction false} UpsertAllUnique(refuges: seq<RefugeEntry>, results: seq<Option<RefugeEntry>>)
    requires UniqueIds(refuges)
    ensures UniqueIds(UpsertAll(refuges, results))
    decreases |results|
  {
    if results != [] {
      UpsertAllUnique(refuges, results[..|results| - 1]);
      if results[|results| - 1].Some? {
        UpsertedUnique(UpsertAll(refuges, results[..|results| - 1]), results[|results| - 1].value);
      }
    }
  }

  /** The ids in a list. */
  function Ids(refuges: seq<RefugeEntry>): set<string> {
    set i | 0 <= i < |refuges| :: refuges[i].id
  }

  /** The ids of the refuges that produced an entry. */
  function ResultIds(results: seq<Option<RefugeEntry>>): set<string> {
    set i | 0 <= i < |results| && results[i].Some? :: results[i].value.id
  }

  /** An upsert adds the entry's id and removes none. */
  lemma UpsertedIds(refuges: seq<RefugeEntry>, entry: RefugeEntry)
    ensures Ids(Upserted(refuges, entry)) == Ids(refuges) + {entry.id}
  {
    var r := Upserted(refuges, entry);
    match FindIndex(refuges, entry.id)
    case Some(k) =>
      forall x | x in Ids(refuges) + {entry.id} ensures x in Ids(r) {
        if x == entry.id {
          assert r[k].id == x;
        } else {
          var i :| 0 <= i < |refuges| && refuges[i].id == x;
          assert r[i] == refuges[i];
        }
      }
      forall x | x in Ids(r) ensures x in Ids(refuges) + {entry.id} {
        var i :| 0 <= i < |r| && r[i].id == x;
        if i != k {
          assert r[i] == refuges[i];
        }
      }
    case None =>
      forall x | x in Ids(refuges) + {entry.id} ensures x in Ids(r) {
        if x == entry.id {
          assert r[|refuges|].id == x;
        } else {
          var i :| 0 <= i < |refuges| && refuges[i].id == x;
          assert r[i] == refuges[i];
        }
      }
      forall x | x in Ids(r) ensures x in Ids(refuges) + {entry.id} {
        var i :| 0 <= i < |r| && r[i].id == x;
        if i < |refuges| {
          assert r[i] == refuges[i];
        }
      }
  }

  lemma ResultIdsStep(results: seq<Option<RefugeEntry>>)
    requires results != []
    ensures var n := |results| - 1;
            ResultIds(results) == ResultIds(results[..n]) + (if results[n].Some? then {results[n].value.id} else {})
  {
    var n := |results| - 1;
    var last: set<string> := if results[n].Some? then {results[n].value.id} else {};
    forall x | x in ResultIds(results) ensures x in ResultIds(results[..n]) + last {
      var i :| 0 <= i < |results| && results[i].Some? && results[i].value.id == x;
      if i < n {
        assert results[..n][i] == results[i];
      }
    }
    forall x | x in ResultIds(results[..n]) ensures x in ResultIds(results) {
      var i :| 0 <= i < n && results[..n][i].Some? && results[..n][i].value.id == x;
      assert results[i] == results[..n][i];
    }
  }

  /** After `main`'s loop the list holds the ids it had before and the id of every refuge that produced an entry, and no others. */
  lemma {:induction false} UpsertAllIds(refuges: seq<RefugeEntry>, results: seq<Option<RefugeEntry>>)
    ensures Ids(UpsertAll(refuges, results)) == Ids(refuges) + ResultIds(results)
    decreases |results|
  {
    if results != [] {
      var n := |results| - 1;
      UpsertAllIds(refuges, results[..n]);
      ResultIdsStep(results);
      if results[n].Some? {
        UpsertedIds(UpsertAll(refuges, results[..n]), results[n].value);
      }
    }
  }

  /**
   * `existingRefuges` in `main`: the list read from `refuges.json`, which the
   * loop over the refuges updates in place.
   */
  class Catalog {
    var refuges: seq<RefugeEntry>

    constructor (existing: seq<RefugeEntry>)
      ensures refuges == existing
    {
      refuges := existing;
    }

    /** The body of `if (entry) { ... }` in `main`. */
    method Upsert(entry: RefugeEntry)
      modifies this
      ensures refuges == Upserted(old(refuges), entry)
    {
      var existingIndex := FindIndex(refuges, entry.id);
      if existingIndex.Some? {
        refuges := refuges[existingIndex.value := entry];
      } else {
        refuges := refuges + [entry];
      }
    }

    /** The loop of `main` over the results of `processRefuge`, in order. */
    method UpsertResults(results: seq<Option<RefugeEntry>>)
      modifies this
      ensures refuges == UpsertAll(old(refuges), results)
    {
      var i := 0;
      while i < |results|
        invariant 0 <= i <= |results|
        invariant refuges == UpsertAll(old(refuges), results[..i])
      {
        assert results[..i + 1][..i] == results[..i];
        if results[i].Some? {
          Upsert(results[i].value);
        }
        i := i + 1;
      }
      assert results[..i] == results;
    }
  }
}
