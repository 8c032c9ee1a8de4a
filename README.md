# Refuge flyover: a Dafny model

The flyover project animates a camera along the roads and trails of US
national wildlife refuges. A Node script, `generate_flyover_data.js`, fetches
each refuge's road or trail features. It turns every feature's geometry into
CSV rows (`path_name,longitude,latitude,altitude,timestamp`), derives a slug
id for the refuge, and upserts a catalogue entry into `refuges.json`. A
browser player loads one refuge's CSV and groups the rows into named paths
sorted by timestamp. It then plays a path: it flies from waypoint to
waypoint, wraps around at either end, turns the short way round, and reacts
to the keyboard, the speed buttons and the progress bar. The repository
keeps two versions of the player:

- `src/app.js` is the current one. It interpolates inside each segment, once
  per animation frame.
- `app.js` is an earlier draft. It makes one linear `flyTo` per waypoint and
  steps on the map's `moveend` event. Its default altitude is 1000.

The model has these modules, one file each:

- `wrappers.dfy` (`Wrappers`): the `Option` type.
- `js_text.dfy` (`JsText`): the JavaScript built-ins the code relies on.
  These are `split`, `join`, `parseInt` and `parseFloat` on decimal text,
  `String(n)`, `indexOf`, `replace` with a string pattern, and `replace`
  with a global literal pattern.
- `waypoints.dfy` (`Waypoints`): a waypoint, and the stable sort by timestamp.
- `csv.dfy` (`Csv`): `loadFlyoverData`, which both players share, with the
  default altitude as a parameter. The source's two loops are methods
  (`ParseCsv`, `GroupLines`, `SortPaths`). They are proved equal to the
  function `ParsedPaths`, and the lemmas state what the loaded data holds.
- `playback.dfy` (`Playback`): the arithmetic both players share. This covers
  wrap-around, the bearing turn, interpolation, `Math.round`, the seek index
  and the progress bar.
- `flyover_app.dfy` (`FlyoverApp`): the current player. Its module-level
  state is the class `Player`, and each handler is a method on it.
- `flyover_draft.dfy` (`FlyoverDraft`): the draft player, built the same way.
- `refuge_id.dfy` (`RefugeId`): `generateId`.
- `generator.dfy` (`Generator`): `processRefuge` and its feature loops, the
  display-name abbreviation, and the catalogue upsert loop of `main`. It
  also proves that the player's loader reads a generated file back row for
  row.

A JavaScript number is `int` or `real`. `NaN` appears only where
`parseFloat` can return it: the longitude and latitude of a loaded
waypoint are `Num` (`NaN` or a finite value).

## Model

| member | source | states |
|---|---|---|
| JsText.Split | src/app.js:86 | `split` yields at least one piece and no piece holds the separator |
| JsText.JoinSplit | generate_flyover_data.js:95 | joining the pieces of a split with the same separator restores the text |
| JsText.SplitJoin | generate_flyover_data.js:95 | splitting a join of separator-free pieces returns exactly those pieces |
| JsText.TrimStart | src/app.js:96-99 | the number parsers drop exactly the leading white space (the characters JavaScript trims, Unicode space separators included): what is left is a suffix of the text, everything before it is white space, and it starts with a non-space |
| JsText.DigitRun | src/app.js:96-99 | the digit prefix the parsers read is all digits and is followed by a non-digit or the end |
| JsText.ParseInt | src/app.js:99 | `parseInt` gives a number exactly when, after the white space and an optional sign, a digit follows; a negative result needs a minus sign |
| JsText.ParseFloat | src/app.js:96-98 | `parseFloat` gives a number exactly when, after the white space and an optional sign, a digit follows, or a point and a digit; a negative result needs a minus sign |
| JsText.NatToString | generate_flyover_data.js:77 | `${n}` for a natural number is a non-empty string of decimal digits, with no leading zero unless `n` is 0 |
| JsText.NatToStringValue | generate_flyover_data.js:77 | the digits of `${n}` denote `n` |
| JsText.ParseIntOfNatToString | src/app.js:99 | `parseInt` reads a written natural number back as that number |
| JsText.ParseFloatOfDigits | src/app.js:98 | `parseFloat` reads a non-empty string of decimal digits as the number those digits denote |
| JsText.ParseFloatOfNatToString | src/app.js:98 | `parseFloat` reads a written natural number back as that number |
| JsText.IndexOf | generate_flyover_data.js:104 | `indexOf` finds an occurrence, and no occurrence lies before it; `None` means there is none |
| JsText.ReplaceFirst | generate_flyover_data.js:104 | `replace` with a string pattern changes nothing without a match; otherwise the text before the first match is kept, the replacement stands at that match, and the text after the match follows it |
| JsText.ReplaceAllAbsent | generate_flyover_data.js:24-26 | a global replace whose pattern's first character is absent changes nothing |
| JsText.ReplaceAllPrefix | generate_flyover_data.js:24-26 | a global replace passes over a prefix that cannot start a match |
| Waypoints.Insert | src/app.js:105 | one insertion step adds exactly the inserted waypoint (multiset) |
| Waypoints.InsertSorted | src/app.js:105 | inserting into a timestamp-ordered path keeps it ordered |
| Waypoints.InsertStable | src/app.js:105 | insertion puts the new waypoint before all existing ones with its timestamp |
| Waypoints.SortByTimestamp | src/app.js:104-106 | the sort `(a, b) => a.timestamp - b.timestamp` orders by timestamp and permutes its input |
| Waypoints.SortByTimestampStable | src/app.js:105 | the sort keeps the input order among waypoints with equal timestamps (stability) |
| Csv.AltitudeOf | src/app.js:98 | `parseFloat(altitude) \|\| default`: a parsed non-zero value is kept; a missing field, an unparsable one and 0 give the default; with a non-zero default the result is never 0 |
| Csv.TimestampOf | src/app.js:99 | `parseInt(timestamp) \|\| 0`: a parsed value is kept; a missing or unparsable field gives 0 |
| Csv.ParseLine | src/app.js:90-101 | a line is kept exactly when its first three fields are present and non-empty; a kept row is named by field 0 (non-empty and comma-free) and its waypoint is `parseFloat` of fields 1 and 2, `parseFloat(altitude) || default` of field 3 and `parseInt(timestamp) || 0` of field 4; with a non-zero default its altitude is non-zero |
| Csv.ParseCsv | src/app.js:86-108 | the loader's loops compute `ParsedPaths`: the data lines are grouped by path name, then each list is sorted |
| Csv.ParsedPaths | src/app.js:81-109 | the loaded data has one path per name under which some data line is kept, and each path is that name's waypoints sorted by timestamp |
| Csv.GroupLines | src/app.js:89-102 | the first loop pushes the waypoint of every kept line onto its path, in line order |
| Csv.PushWaypoint | src/app.js:92-100 | a push creates the list for a new name, then appends the waypoint |
| Csv.SortPaths | src/app.js:104-106 | the second loop sorts every path's list and keeps the set of names |
| Csv.HeaderSkipped | src/app.js:86 | `slice(1)` drops exactly the header line |
| Csv.GroupedContents | src/app.js:92-100 | grouping makes one list per path name that occurs, holding that path's waypoints in input order |
| Csv.LoadedPathNames | src/app.js:89-102 | a path exists in the loaded data if and only if some data line is kept under its name |
| Csv.LoadedPath | src/app.js:89-106 | every loaded path is non-empty, ordered by timestamp, a permutation of its kept rows, and stable among equal timestamps; with a non-zero default no altitude is 0 |
| Csv.RowsAltitude | src/app.js:98 | with a non-zero default, no kept row has altitude 0 |
| Csv.FirstSeenNames | src/app.js:326 | the names in first-seen order are exactly the names that occur, each listed once |
| Csv.PathNamesAreKeys | src/app.js:326 | `Object.keys(flyoverData)` lists exactly the loaded paths, each once |
| Playback.Wrap | src/app.js:136-138 | a step past either end wraps to the other end; an index already in range is unchanged; the result is always in range |
| Playback.NextFrame | src/app.js:136-138 | the next index is always in `[0, length)` |
| Playback.NextFrameIsModular | src/app.js:136-138 | for a valid frame and direction ±1, the next index is `(frame + direction) mod length`: forward from the last gives 0, backward from 0 gives the last |
| Playback.AdvanceIsModular | src/app.js:167-179 | after `k` completed segments the frame is `(frame + direction * k) mod length` |
| Playback.AdvanceThenReverse | src/app.js:169-176 | `k` steps forward and then `k` steps in the reverse direction return to the starting frame, even across the wrap |
| Playback.FullLap | src/app.js:169-176 | `length` steps in one direction return to the starting frame |
| Playback.NormalizeBearingDiff | src/app.js:152-156 | the turn is the difference, or the difference ±360; for any difference in `[-540, 540]` it lies in `[-180, 180]` |
| Playback.ShortestRotation | src/app.js:154-156 | no other whole number of extra turns gives a shorter rotation than the normalised turn |
| Playback.TurnReachesTarget | src/app.js:144-156 | for a target bearing in `[0, 360)` and a map bearing in `[-180, 180]`, the turn is at most half a circle and ends on the target (mod 360) |
| Playback.Lerp | src/app.js:184-186 | interpolation gives `a` at `t = 0` and `b` at `t = 1`, and stays between `a` and `b` for `t` in `[0, 1]` |
| Playback.Round | src/app.js:258 | `Math.round(x)` is the integer `n` with `n <= x + 0.5 < n + 1` |
| Playback.RoundWithin | src/app.js:258 | rounding never leaves an interval whose ends are integers |
| Playback.SeekIndexAsWritten | src/app.js:258 | the seek index as written lies in `[0, length]` |
| Playback.SeekToEndOverruns | src/app.js:258-260 | with the bar at its right end (100), the index as written is `length`, one past the last waypoint |
| Playback.SeekIndex | src/app.js:258-260 | the guarded seek index is always a valid index; it equals the index as written whenever that one is valid, and is the last index when that one overruns |
| Playback.Progress | app.js:108 | the bar position of a valid frame lies in `[0, 100)`, and it is 0 at frame 0 |
| Playback.SeekProgress | app.js:170-173 | seeking to the bar position a frame shows lands back on that frame |
| Playback.SegmentProgress | src/app.js:198 | at `t = 0` the in-segment bar position equals the frame's bar position |
| Playback.SegmentProgressInRange | src/app.js:198 | forwards, or backwards from a frame other than the first, the bar stays in `[0, 100]` during a segment |
| Playback.SegmentProgressBelowZero | src/app.js:198 | backwards out of frame 0 the bar value goes below 0 |
| FlyoverApp.SegmentShape | src/app.js:136-140 | a segment leads to the current waypoint's neighbour in the playback direction, `(frame + direction) mod length`: the first after the last, the last before the first |
| FlyoverApp.SegmentOf | src/app.js:130-160 | a segment starts at the current waypoint and the map's bearing and lasts `3000 / speed` ms; for a target bearing in `[0, 360)` and a map bearing in `[-180, 180]` its turn is at most 180 degrees either way and ends on the target (mod 360) |
| FlyoverApp.LerpNum | src/app.js:184-185 | interpolating coordinates gives `NaN` exactly when either end is `NaN`; at `t = 0` with a numeric end it gives the start; for `t` in `[0, 1]` a numeric result lies between the ends |
| FlyoverApp.Interpolate | src/app.js:183-187 | at `t = 0` (with numeric target coordinates) the pose is the current waypoint with the start bearing; longitude and latitude are `NaN` exactly when an end is; for `t` in `[0, 1]` each numeric coordinate and the altitude lie between the two waypoints' values, and the bearing between the start and the target |
| FlyoverApp.PartialTurn | src/app.js:187 | the turn made a fraction `t` into a segment is 0 at `t = 0`, and for `t` in `[0, 1]` lies between 0 and the whole turn `bearingDiff` |
| FlyoverApp.InitialPath | src/app.js:335-338 | `loadRefuge` picks the requested path when it exists, otherwise the first; it picks none exactly when there are no paths |
| FlyoverApp.Player.constructor | src/app.js:68-75 | the initial state: no data, no path, frame 0, stopped, speed 4, forwards |
| FlyoverApp.Player.LoadDataset | src/app.js:322 | the data becomes what the loader returns for the CSV text (default altitude 300), and every path in it is non-empty |
| FlyoverApp.Player.LoadRefuge | src/app.js:310-344 | loads the data, then selects the requested or the first path as `loadPath` does; with no paths the playback state is untouched |
| FlyoverApp.Player.LoadPath | src/app.js:287-307 | the selected path is the named one, or none; the frame becomes 0, the speed 4 and playback stops; the direction is kept |
| FlyoverApp.Player.StartAnimation | src/app.js:210-217 | a no-op while playing or without a path; otherwise playing starts and the first segment is set up |
| FlyoverApp.Player.StopAnimation | src/app.js:219-225 | playback is stopped afterwards; the result says whether it was playing |
| FlyoverApp.Player.Animate | src/app.js:130-159 | while playing, the segment from the current waypoint to the next one in the playback direction, wrapping around; nothing when stopped |
| FlyoverApp.Player.Frame | src/app.js:161-201 | stopped: nothing changes. At `t >= 1` the frame steps with wrap-around, stays valid, and the next segment starts. Before that the frame is kept and the pose is interpolated |
| FlyoverApp.Player.KeyDown | src/app.js:227-239 | ArrowLeft plays backwards. ArrowRight flips a backward playback forward at the same speed, or doubles the speed. Either key starts a stopped animation (when a path is selected). Other keys change nothing |
| FlyoverApp.Player.PlayPause | src/app.js:241-247 | toggles: stops a running animation, starts a stopped one (when a path is selected) |
| FlyoverApp.Player.FastForward | src/app.js:249-251 | doubles the speed, which stays positive |
| FlyoverApp.Player.Rewind | src/app.js:253-255 | halves the speed, which stays positive |
| FlyoverApp.Player.Seek | src/app.js:257-267 | the frame becomes the guarded seek index, always valid, and the waypoint there is returned |
| FlyoverDraft.FlightShape | app.js:84-88 | a flight faces the current waypoint's neighbour in the playback direction, `(frame + direction) mod length`: the first after the last, the last before the first |
| FlyoverDraft.FlightOf | app.js:78-109 | a flight goes to the current waypoint, faces the bearing towards the next one, lasts `3000 / speed` ms and puts the bar in `[0, 100)` |
| FlyoverDraft.Player.constructor | app.js:17-24 | the initial state: no data, no path, frame 0, stopped, speed 4, forwards |
| FlyoverDraft.Player.LoadDataset | app.js:224 | the data becomes what the loader returns for the CSV text (default altitude 1000), and every path in it is non-empty |
| FlyoverDraft.Player.LoadRefuge | app.js:217-246 | loads the data and selects the first path, if any, as `loadPath` does |
| FlyoverDraft.Player.LoadPath | app.js:194-215 | the selected path is the named one, or none; the frame becomes 0, the speed 4 and playback stops |
| FlyoverDraft.Player.StartAnimation | app.js:123-130 | a no-op while playing or without a path; otherwise playing starts and the first flight is requested |
| FlyoverDraft.Player.StopAnimation | app.js:132-138 | playback is stopped afterwards; the result says whether it was playing |
| FlyoverDraft.Player.Animate | app.js:78-109 | while playing, the flight to the current waypoint facing the next one in the playback direction, wrapping around |
| FlyoverDraft.Player.MoveEnd | app.js:111-121 | while playing, the frame steps in the playback direction with wrap-around and the next flight starts; stopped, nothing changes |
| FlyoverDraft.Player.KeyDown | app.js:140-152 | ArrowLeft plays backwards. ArrowRight flips a backward playback forward, or doubles the speed. Either key starts a stopped animation (when a path is selected). Other keys change nothing |
| FlyoverDraft.Player.PlayPause | app.js:154-160 | toggles: stops a running animation, starts a stopped one (when a path is selected) |
| FlyoverDraft.Player.FastForward | app.js:162-164 | doubles the speed |
| FlyoverDraft.Player.Rewind | app.js:166-168 | halves the speed, which stays positive |
| FlyoverDraft.Player.Seek | app.js:170-180 | the frame becomes the guarded seek index, always valid, and the waypoint there is returned |
| RefugeId.Lower | generate_flyover_data.js:23 | lower-casing keeps the length and maps every character through `LowerChar` |
| RefugeId.Sanitize | generate_flyover_data.js:27 | every character outside a-z and 0-9 becomes '_', the others stay |
| RefugeId.Collapse | generate_flyover_data.js:28 | after collapsing, no two '_' are adjacent, and no new character appears |
| RefugeId.CollapseKeeps | generate_flyover_data.js:28 | collapsing keeps every character other than '_' in order; the result is empty, starts with '_' or ends with '_' exactly when the input does |
| RefugeId.CollapseNoDouble | generate_flyover_data.js:28 | text without a double '_' is left unchanged |
| RefugeId.TrimUnderscores | generate_flyover_data.js:29 | the trimmed text is the slice of the input after at most one leading '_', running to the end, or to one before the end when the input ends with '_' past the leading one |
| RefugeId.TrimmedEnds | generate_flyover_data.js:28-29 | after collapsing, trimming leaves no '_' at either end |
| RefugeId.GenerateId | generate_flyover_data.js:22-30 | an id uses only a-z, 0-9 and '_', has no double '_', and has no '_' at either end |
| RefugeId.IdIsFixed | generate_flyover_data.js:22-30 | `generateId` maps every id to itself |
| RefugeId.GenerateIdIdempotent | generate_flyover_data.js:22-30 | `generateId(generateId(name)) == generateId(name)` |
| RefugeId.DeleteWords | generate_flyover_data.js:24-26 | the three deletions remove " national wildlife refuge" from the lower-cased J.N. "Ding" Darling name and touch nothing else |
| RefugeId.DingDarling | src/app.js:32 | `generateId` turns "J.N. “Ding” Darling National Wildlife Refuge" into `j_n_ding_darling`, the file name the player's table expects |
| Generator.DataSourceFor | generate_flyover_data.js:39-43 | a code starting with "FF" selects the roads service, any other code the trails service |
| Generator.PathName | generate_flyover_data.js:57 | the first truthy property among ROUTE_NAME, TRNAME, NAT_RTE_ID, otherwise "Unknown Path"; never empty |
| Generator.CleanPathName | generate_flyover_data.js:59 | same length, every comma becomes a space and every other character is kept |
| Generator.CleanPathNameIdempotent | generate_flyover_data.js:59 | cleaning twice is cleaning once |
| Generator.ConcatAppend | generate_flyover_data.js:64-67 | flattening distributes over concatenation of line lists |
| Generator.ConcatAt | generate_flyover_data.js:64-67 | each line of a MultiLineString appears whole and in place, between the lines before it and after it |
| Generator.Coordinates | generate_flyover_data.js:61-68 | the `forEach`/`concat` loop yields the coordinates of a LineString unchanged, the lines of a MultiLineString in order, and nothing for any other geometry |
| Generator.FeatureRows | generate_flyover_data.js:71-83 | one row per coordinate, in order, at altitude 300, with timestamps 1, 2, ..., n |
| Generator.ProcessFeatures | generate_flyover_data.js:50-84 | the loop fails exactly when some feature lacks its properties or geometry; otherwise the lines are the header followed by one line per row of every feature in order, and `totalPoints` equals the number of lines after the header |
| Generator.PushFeature | generate_flyover_data.js:56-83 | one feature appends one line per coordinate under its cleaned name, and counts them |
| Generator.PushRows | generate_flyover_data.js:71-83 | the inner loop appends the feature's rows in coordinate order with timestamps from 1, and adds their number to `totalPoints` |
| Generator.AllRowsNamed | generate_flyover_data.js:57-59 | every generated row's path name is non-empty and comma-free |
| Generator.HeaderOneLine | generate_flyover_data.js:50 | the header holds no line break |
| Generator.RowLineFields | generate_flyover_data.js:77 | a generated line splits at commas into exactly its five fields and is a single line |
| Generator.RowLineLoads | generate_flyover_data.js:77 | the player's loader keeps a generated line, with its name, coordinates, altitude and timestamp |
| Generator.GeneratedDataLines | generate_flyover_data.js:95 | after the loader drops the header, the lines of a generated file are exactly the row lines |
| Generator.GeneratedFileLoads | generate_flyover_data.js:50-95 | a generated file, read by the player's loader with any default altitude, yields exactly the generated rows, in order |
| Generator.Abbreviate | generate_flyover_data.js:104 | the display name is never longer than the refuge's name, and is the name itself when it holds no "Refuge" |
| Generator.RefugeInTail | generate_flyover_data.js:104 | with no "Refuge" in `a`, every "Refuge" in `a` followed by text starting with a space lies in that text |
| Generator.NoRefugeLeft | generate_flyover_data.js:104 | once the first replacement has left "<a> NWR", with no "Refuge" in `a`, the other two patterns find no match |
| Generator.AbbreviateNational | generate_flyover_data.js:104 | "<a> National Wildlife Refuge" is shown as "<a> NWR" whenever `a` holds no "Refuge" (the twelve listed names of this shape, Ridgefield and Rocky Mountain Arsenal included) |
| Generator.AbbreviateWildlife | generate_flyover_data.js:104 | "<a> Wildlife Refuge" is shown as "<a> NWR" whenever `a` holds no "Refuge" and the name no "National Wildlife Refuge" (Wichita Mountains) |
| Generator.AbbreviateRefuge | generate_flyover_data.js:104 | "<a> Refuge" is shown as "<a> NWR" whenever `a` holds no "Refuge" and the name no "Wildlife Refuge" (National Elk) |
| Generator.EntryFor | generate_flyover_data.js:91-108 | the entry's id is `generateId` of the refuge name (a valid id), its name the abbreviated refuge name, its country code the refuge's, its file `data/<id>.csv` and its zoom 11 |
| Generator.ProcessRefuge | generate_flyover_data.js:32-115 | the result is `null` exactly when the fetch gives no data, some feature lacks its properties or geometry (the thrown error is caught), or there are no coordinates; otherwise it is the entry together with the joined header-and-rows text |
| Generator.FindIndex | generate_flyover_data.js:132 | `findIndex` returns an index whose entry has the id, and no earlier entry has it; `None` means no entry has it |
| Generator.Upserted | generate_flyover_data.js:132-137 | with the id present, the first entry holding it is replaced in place and every other entry stays; without it, the entry is appended; the list grows by at most one and holds the entry |
| Generator.UpsertAll | generate_flyover_data.js:128-139 | `main`'s loop never shortens the list and adds at most one entry per result |
| Generator.UpsertedUnique | generate_flyover_data.js:132-137 | an upsert keeps ids unique |
| Generator.UpsertAllUnique | generate_flyover_data.js:128-139 | `main`'s loop keeps ids unique |
| Generator.UpsertedIds | generate_flyover_data.js:132-137 | an upsert adds the entry's id and removes none |
| Generator.UpsertAllIds | generate_flyover_data.js:128-139 | after `main`'s loop the ids are the earlier ones plus the id of every refuge that produced an entry |
| Generator.Catalog.constructor | generate_flyover_data.js:119-121 | the catalogue starts as the list read from `refuges.json` |
| Generator.Catalog.Upsert | generate_flyover_data.js:130-138 | in place, the entry with the same id is replaced, or the entry is appended |
| Generator.Catalog.UpsertResults | generate_flyover_data.js:128-139 | the loop applies the upserts of the non-null results in order |

Two details of the code that the model keeps:

- The normalised turn lies in [-180, 180], both ends included: a difference
  of exactly -180 is kept as it is (src/app.js:155-156).
- A seek leaves the playing state and the current segment unchanged
  (src/app.js:257-267).

## Left out

- Mapbox (`jumpTo`, `flyTo`, `getBearing`, markers, layers), `loadFacilities` and the DOM (selectors, icons, aria labels, settings panel): rendering only. The map's bearing is an input of the methods, and the pose or flight they would draw is returned.
- `requestAnimationFrame`, `performance.now` and the `moveend`/`once` coupling: a frame takes the elapsed fraction `t` of its segment as input. `MoveEnd` is the map event. A tick left over from an earlier path is not modelled.
- `calculateBearing`, `toRadians`, `toDegrees`: floating-point trigonometry. The target bearing comes from a parameter of type `BearingFn`.
- `fetch`, `fs`, `JSON.parse`/`JSON.stringify`, `console`, the URL and `history.pushState`: I/O. The CSV text is an input. The feature service is the `fetch` parameter of `ProcessRefuge`. Its thrown errors and a missing `features` list collapse into `None`, the `null` the code returns. A feature whose `properties` or `geometry` is null is modelled (`Generator.Complete`); other malformed shapes, such as a MultiLineString without coordinates, are not.
- src/fwsClient.js is not part of this model; it is a network client.
- `initialize` and `loadRefugesData`: reading `refuges.json`, the URL parameters and the random choice of the first refuge (`Math.random`). The requested path of the URL is the `requested` input of `FlyoverApp.Player.LoadRefuge`.
- The selector handlers: choosing a path calls `LoadPath`, and choosing a refuge calls `LoadRefuge` after a `find` over the catalogue. The URL update and the map style selector are DOM only.
- The map centre of a catalogue entry (`toFixed(4)` averages): floating-point rounding.
- Floating-point behaviour in general: numbers are unbounded `int`/`real`, so IEEE-754 rounding, `Infinity` and overflow are outside the model.
- Generator.RowLine: JavaScript's number-to-text conversion of a coordinate is a parameter `show`. The round trip through the loader (`GeneratedFileLoads`) requires that it writes text that `parseFloat` reads back and that holds no comma or line break.
- Generator.GeneratedFileLoads: covers path names without a line break (the generator never checks for one).
- JsText.ParseFloat: only decimal text with an optional sign and fraction; exponents and `Infinity` are not modelled.
- JsText.ParseInt: only decimal text; the `0x` prefix that `parseInt` also accepts is not modelled.
- RefugeId.Lower: only A-Z are lower-cased; JavaScript's full Unicode `toLowerCase` is not modelled.
- Generator.Properties: a name property is a string or missing. Numbers and other non-string values, which `replace` would reject, are not modelled.
- Csv.FirstSeen: path names come out in first-seen order. JavaScript lists integer-like keys first, in ascending order, and that ordering is not modelled. Path names that collide with `Object.prototype` members (`constructor`, `__proto__`) are not modelled either.
- Csv.SortPaths: `Array.prototype.sort` is modelled by its result, a stable sort by timestamp (an insertion sort), not by the engine's algorithm.
- FlyoverApp.Player.Seek and FlyoverDraft.Player.Seek: use the guarded index `SeekIndex` (see Findings), not the overrunning one. Without a selected path they change nothing, where the code throws.
- Generator.AbbreviateNational, Generator.AbbreviateWildlife and Generator.AbbreviateRefuge: a name with "Refuge" more than once, or with one of the longer patterns in an unexpected place, is abbreviated by the model's `Abbreviate` but not described by a lemma; every listed refuge name has one of the three described shapes.

## Findings

| source | as written | input that shows it | evidently intended | confidence | as-written member | corrected member |
|---|---|---|---|---|---|---|
| src/app.js:258-260 | `currentFrame = Math.round(value / 100 * currentPath.length)` | the bar dragged to 100 on a path of N waypoints gives index N, and `currentPath[N]` is undefined | the last waypoint, index N - 1 | not executed | Playback.SeekToEndOverruns | Playback.SeekIndex |
| app.js:171-173 | the same expression in the draft player | the bar at 100 on a path of N waypoints gives index N | index N - 1 | not executed | Playback.SeekToEndOverruns | Playback.SeekIndex |
