/**
 * The current flyover player (src/app.js): the playback state the page keeps
 * in module-level variables, the handlers that change it, and the two steps of
 * the animation loop — `animate`, which sets up the segment from the current
 * waypoint to the next, and `frame`, which either draws a point inside that
 * segment or, once the segment's time is up, moves to the next waypoint and
 * starts the following segment.
 *
 * Mapbox, the DOM and the clock are outside the model: the map's bearing is an
 * input, `calculateBearing` is a parameter, a frame receives the elapsed
 * fraction `t` of its segment, and what would be drawn is returned.
 */
module FlyoverApp {
  import opened Wrappers
  import opened Waypoints
  import opened Playback
  import Csv

  /** The altitude a waypoint gets when its altitude field is missing, non-numeric or 0. */
  const DefaultAltitude: real := 300.0
  /** `animationSpeed` when the page starts and after every `loadPath`. */
  const InitialSpeed: real := 4.0
  /** A segment lasts this many milliseconds at speed 1. */
  const BaseDurationMs: real := 3000.0

  /** What `animate` sets up for one segment. */
  datatype Segment = Segment(from: Waypoint, to: Waypoint, startBearing: real, bearingDiff: real, durationMs: real)

  /** A camera position passed to `map.jumpTo` (always at pitch 50). */
  datatype Pose = Pose(longitude: Num, latitude: Num, altitude: real, bearing: real)

  /**
   * The outcome of one animation frame: the loop had stopped; the segment was
   * over and the frame index advanced, with the next segment if one started;
   * or the camera moved to a point inside the segment, with the new progress
   * bar value.
   */
  datatype Tick = Stopped | Advanced(next: Option<Segment>) | Moved(pose: Pose, progress: real)

  /**
   * The segment `animate` sets up from frame `frame` of `path`: it starts at
   * the current waypoint and the map's bearing, lasts 3000 / speed
   * milliseconds, and, for a target bearing in [0, 360) and a map bearing in
   * [-180, 180], turns the shorter way round (at most 180 degrees) onto the
   * target.
   */
  function SegmentOf(path: seq<Waypoint>, frame: int, direction: int, speed: real, mapBearing: real, bearing: BearingFn)
    : (segment: Segment)
    requires 0 <= frame < |path| && speed > 0.0
    ensures segment.from == path[frame] && segment.to in path && segment.startBearing == mapBearing
    ensures segment.durationMs * speed == BaseDurationMs
    ensures var target := bearing(segment.from, segment.to);
            0.0 <= target < 360.0 && -180.0 <= mapBearing <= 180.0 ==>
              && -180.0 <= segment.bearingDiff <= 180.0
              && (mapBearing + segment.bearingDiff == target || mapBearing + segment.bearingDiff == target - 360.0
                  || mapBearing + segment.bearingDiff == target + 360.0)
  {
    var next := NextFrame(frame, direction, |path|);
    var target := bearing(path[frame], path[next]);
    Segment(path[frame], path[next], mapBearing, NormalizeBearingDiff(target - mapBearing), BaseDurationMs / speed)
  }

  /**
   * A segment leads to the neighbour of the current waypoint in the playback
   * direction: the first waypoint after the last one, the last before the
   * first.
   */
  lemma SegmentShape(path: seq<Waypoint>, frame: int, direction: int, speed: real, mapBearing: real, bearing: BearingFn)
    requires 0 <= frame < |path| && speed > 0.0 && IsDirection(direction)
    ensures SegmentOf(path, frame, direction, speed, mapBearing, bearing).to == path[(frame + direction) % |path|]
    ensures direction == 1 && frame == |path| - 1 ==> SegmentOf(path, frame, direction, speed, mapBearing, bearing).to == path[0]
    ensures direction == -1 && frame == 0 ==> SegmentOf(path, frame, direction, speed, mapBearing, bearing).to == path[|path| - 1]
  {
    NextFrameIsModular(frame, direction, |path|);
  }

  /** `a + (b - a) * t` on numbers that may be NaN: NaN on either side gives NaN. */
  function LerpNum(a: Num, b: Num, t: real): (x: Num)
    ensures x.Finite? <==> a.Finite? && b.Finite?
    ensures t == 0.0 && b.Finite? ==> x == a
    ensures 0.0 <= t <= 1.0 && x.Finite? ==> Min(a.value, b.value) <= x.value <= Max(a.value, b.value)
  {
    if a.Finite? && b.Finite? then Finite(Lerp(a.value, b.value, t)) else NaN
  }

  /** `bearingDiff * t`: the part of the turn made a fraction `t` into a segment. */
  function PartialTurn(diff: real, t: real): (turn: real)
    ensures t == 0.0 ==> turn == 0.0
    ensures 0.0 <= t <= 1.0 ==> Min(0.0, diff) <= turn <= Max(0.0, diff)
  {
    var turn := diff * t;
    TurnFacts(diff, t, turn);
    turn
  }

  lemma TurnFacts(diff: real, t: real, turn: real)
    requires turn == diff * t
    ensures t == 0.0 ==> turn == 0.0
    ensures 0.0 <= t <= 1.0 ==> Min(0.0, diff) <= turn <= Max(0.0, diff)
  {
    if t == 0.0 {
      assert turn == diff * 0.0 == 0.0;
    } else if 0.0 < t <= 1.0 {
      ScaleWithin(diff, t);
      if diff >= 0.0 {
        assert 0.0 <= turn <= diff;
      } else {
        assert diff <= turn <= 0.0;
      }
    }
  }

  /** The camera a fraction `t` into `segment`. */
  function Interpolate(segment: Segment, t: real): (pose: Pose)
    ensures t == 0.0 && segment.to.longitude.Finite? && segment.to.latitude.Finite? ==>
              pose == Pose(segment.from.longitude, segment.from.latitude, segment.from.altitude, segment.startBearing)
    ensures 0.0 <= t <= 1.0 ==>
              && Min(segment.from.altitude, segment.to.altitude) <= pose.altitude <= Max(segment.from.altitude, segment.to.altitude)
              && Min(segment.startBearing, segment.startBearing + segment.bearingDiff) <= pose.bearing
              && pose.bearing <= Max(segment.startBearing, segment.startBearing + segment.bearingDiff)
    ensures pose.longitude.Finite? <==> segment.from.longitude.Finite? && segment.to.longitude.Finite?
    ensures pose.latitude.Finite? <==> segment.from.latitude.Finite? && segment.to.latitude.Finite?
    ensures 0.0 <= t <= 1.0 && segment.from.longitude.Finite? && segment.to.longitude.Finite? ==>
              Min(segment.from.longitude.value, segment.to.longitude.value) <= pose.longitude.value
              <= Max(segment.from.longitude.value, segment.to.longitude.value)
    ensures 0.0 <= t <= 1.0 && segment.from.latitude.Finite? && segment.to.latitude.Finite? ==>
              Min(segment.from.latitude.value, segment.to.latitude.value) <= pose.latitude.value
              <= Max(segment.from.latitude.value, segment.to.latitude.value)
  {
    var longitude := LerpNum(segment.from.longitude, segment.to.longitude, t);
    var latitude := LerpNum(segment.from.latitude, segment.to.latitude, t);
    var altitude := Lerp(segment.from.altitude, segment.to.altitude, t);
    var turn := PartialTurn(segment.bearingDiff, t);
    Pose(longitude, latitude, altitude, segment.startBearing + turn)
  }

  /** Whichever path `loadRefuge` selects: the requested one when it exists, else the first. */
  function InitialPath(pathNames: seq<string>, requested: Option<string>): (choice: Option<string>)
    ensures choice.None? <==> pathNames == []
    ensures choice.Some? ==> choice.value in pathNames
    ensures requested.Some? && requested.value != [] && requested.value in pathNames ==> choice == requested
    ensures (requested.None? || requested.value == [] || requested.value !in pathNames) && pathNames != []
            ==> choice == Some(pathNames[0])
  {
    if requested.Some? && requested.value != [] && requested.value in pathNames then requested
    else if pathNames != [] then Some(pathNames[0])
    else None
  }

  class Player {
    /** The paths of the loaded refuge, by path name. */
    var flyoverData: map<string, seq<Waypoint>>
    /** The selected path; `None` is `undefined`. */
    var currentPath: Option<seq<Waypoint>>
    var currentFrame: int
    var isPlaying: bool
    var animationSpeed: real
    var playbackDirection: int

    /**
     * The direction is ±1, the speed positive, every loaded path non-empty,
     * the frame an index of the selected path, and playing implies a path.
     */
    ghost predicate Valid()
      reads this
    {
      && IsDirection(playbackDirection)
      && animationSpeed > 0.0
      && (forall name :: name in flyoverData ==> flyoverData[name] != [])
      && (currentPath.Some? ==> 0 <= currentFrame < |currentPath.value|)
      && (isPlaying ==> currentPath.Some?)
    }

    /** The state when the page loads. */
    constructor()
      ensures Valid()
      ensures flyoverData == map[] && currentPath == None
      ensures currentFrame == 0 && !isPlaying && animationSpeed == InitialSpeed && playbackDirection == 1
    {
      flyoverData := map[];
      currentPath := None;
      currentFrame := 0;
      isPlaying := false;
      animationSpeed := InitialSpeed;
      playbackDirection := 1;
    }

    /** `flyoverData = await loadFlyoverData(...)`, given the text of the refuge's CSV file. */
    method LoadDataset(csvData: string)
      requires Valid()
      modifies this`flyoverData
      ensures Valid()
      ensures flyoverData == Csv.ParsedPaths(csvData, DefaultAltitude)
    {
      flyoverData := Csv.ParseCsv(csvData, DefaultAltitude);
      forall name | name in flyoverData
        ensures flyoverData[name] != []
      {
        Csv.LoadedPath(csvData, DefaultAltitude, name);
      }
    }

    /**
     * `loadRefuge`: loads the CSV text, then selects the requested path when
     * the data has it and the first path otherwise; `flying` says whether the
     * camera set off for the start of a path.
     */
    method LoadRefuge(csvData: string, requested: Option<string>) returns (flying: bool)
      requires Valid()
      modifies this`flyoverData, this`currentPath, this`currentFrame, this`animationSpeed, this`isPlaying
      ensures Valid()
      ensures flyoverData == Csv.ParsedPaths(csvData, DefaultAltitude)
      ensures var choice := InitialPath(Csv.PathNames(csvData, DefaultAltitude), requested);
              && (choice.Some? ==> choice.value in flyoverData && currentPath == Some(flyoverData[choice.value])
                                   && currentFrame == 0 && animationSpeed == InitialSpeed && !isPlaying)
              && (choice.None? ==> currentPath == old(currentPath) && currentFrame == old(currentFrame)
                                   && animationSpeed == old(animationSpeed) && isPlaying == old(isPlaying))
              && flying == choice.Some?
    {
      LoadDataset(csvData);
      var pathNames := Csv.PathNames(csvData, DefaultAltitude);
      Csv.PathNamesAreKeys(csvData, DefaultAltitude);
      var pathToLoad: Option<string> := if |pathNames| > 0 then Some(pathNames[0]) else None;
      if requested.Some? && requested.value != [] && requested.value in pathNames {
        pathToLoad := requested;
      }
      flying := false;
      if pathToLoad.Some? {
        flying := LoadPath(pathToLoad.value);
      }
    }

    /**
     * `loadPath`: selects the path (`None` when the data has no such name),
     * rewinds to its first waypoint, resets the speed and stops playback.
     * `flying` says whether the camera set off for the start of the path, after
     * which the map's `moveend` starts the animation.
     */
    method LoadPath(pathName: string) returns (flying: bool)
      requires Valid()
      modifies this`currentPath, this`currentFrame, this`animationSpeed, this`isPlaying
      ensures Valid()
      ensures currentPath == (if pathName in flyoverData then Some(flyoverData[pathName]) else None)
      ensures currentFrame == 0 && animationSpeed == InitialSpeed && !isPlaying
      ensures flying <==> pathName in flyoverData
    {
      currentPath := if pathName in flyoverData then Some(flyoverData[pathName]) else None;
      currentFrame := 0;
      animationSpeed := InitialSpeed;
      var _ := StopAnimation();
      flying := currentPath.Some? && |currentPath.value| > 0;
    }

    /**
     * `startAnimation`: does nothing while playing or with no path selected;
     * otherwise starts playing and runs `animate`, whose segment it returns.
     */
    method StartAnimation(mapBearing: real, bearing: BearingFn) returns (segment: Option<Segment>)
      requires Valid()
      modifies this`isPlaying
      ensures Valid()
      ensures isPlaying == (old(isPlaying) || currentPath.Some?)
      ensures segment.Some? <==> !old(isPlaying) && currentPath.Some?
      ensures segment.Some? ==>
                segment.value == SegmentOf(currentPath.value, currentFrame, playbackDirection, animationSpeed, mapBearing, bearing)
    {
      if isPlaying || currentPath.None? {
        return None;
      }
      isPlaying := true;
      segment := Animate(mapBearing, bearing);
    }

    /** `stopAnimation`: stops playing; `stopped` says whether it was playing (and the icons changed). */
    method StopAnimation() returns (stopped: bool)
      modifies this`isPlaying
      ensures !isPlaying && stopped == old(isPlaying)
    {
      if !isPlaying {
        return false;
      }
      isPlaying := false;
      stopped := true;
    }

    /**
     * `animate`: when playing, the segment from the current waypoint to the
     * next one in the playback direction, wrapping around the ends of the path.
     */
    method Animate(mapBearing: real, bearing: BearingFn) returns (segment: Option<Segment>)
      requires Valid()
      ensures segment.Some? <==> isPlaying
      ensures segment.Some? ==>
                segment.value == SegmentOf(currentPath.value, currentFrame, playbackDirection, animationSpeed, mapBearing, bearing)
    {
      if !isPlaying {
        return None;
      }
      var path := currentPath.value;
      var currentPoint := path[currentFrame];
      var nextFrameIndex := currentFrame + playbackDirection;
      if nextFrameIndex >= |path| {
        nextFrameIndex := 0;
      }
      if nextFrameIndex < 0 {
        nextFrameIndex := |path| - 1;
      }
      var nextPoint := path[nextFrameIndex];
      var targetBearing := bearing(currentPoint, nextPoint);
      var bearingDiff := targetBearing - mapBearing;
      if bearingDiff > 180.0 {
        bearingDiff := bearingDiff - 360.0;
      }
      if bearingDiff < -180.0 {
        bearingDiff := bearingDiff + 360.0;
      }
      segment := Some(Segment(currentPoint, nextPoint, mapBearing, bearingDiff, BaseDurationMs / animationSpeed));
    }

    /**
     * `frame`, a fraction `t` of the way through `segment`: nothing once
     * playback has stopped; at `t >= 1` the frame index steps in the playback
     * direction, wrapping around, and the next segment starts; before that the
     * camera moves to the interpolated point and the progress bar follows.
     */
    method Frame(segment: Segment, t: real, mapBearing: real, bearing: BearingFn) returns (tick: Tick)
      requires Valid()
      modifies this`currentFrame
      ensures Valid()
      ensures !isPlaying ==> tick == Stopped && currentFrame == old(currentFrame)
      ensures isPlaying && t >= 1.0 ==>
                && currentFrame == NextFrame(old(currentFrame), playbackDirection, |currentPath.value|)
                && tick == Advanced(Some(SegmentOf(currentPath.value, currentFrame, playbackDirection, animationSpeed, mapBearing, bearing)))
      ensures isPlaying && t < 1.0 ==>
                && currentFrame == old(currentFrame)
                && tick == Moved(Interpolate(segment, t), SegmentProgress(currentFrame, t, playbackDirection, |currentPath.value|))
    {
      if !isPlaying {
        return Stopped;
      }
      var length := |currentPath.value|;
      if t >= 1.0 {
        currentFrame := currentFrame + playbackDirection;
        if currentFrame >= length {
          currentFrame := 0;
        } else if currentFrame < 0 {
          currentFrame := length - 1;
        }
        var next := Animate(mapBearing, bearing);
        return Advanced(next);
      }
      var pose := Interpolate(segment, t);
      tick := Moved(pose, SegmentProgress(currentFrame, t, playbackDirection, length));
    }

    /**
     * The keyboard: ArrowLeft plays backwards; ArrowRight turns a backwards
     * playback forwards, and otherwise doubles the speed; either starts the
     * animation when it is not running. Other keys change nothing.
     */
    method KeyDown(key: Key, mapBearing: real, bearing: BearingFn) returns (segment: Option<Segment>)
      requires Valid()
      modifies this`playbackDirection, this`animationSpeed, this`isPlaying
      ensures Valid()
      ensures key == ArrowLeft ==> playbackDirection == -1 && animationSpeed == old(animationSpeed)
      ensures key == ArrowRight && old(playbackDirection) == -1 ==>
                playbackDirection == 1 && animationSpeed == old(animationSpeed)
      ensures key == ArrowRight && old(playbackDirection) == 1 ==>
                playbackDirection == 1 && animationSpeed == 2.0 * old(animationSpeed)
      ensures key == OtherKey ==>
                playbackDirection == old(playbackDirection) && animationSpeed == old(animationSpeed) && segment.None?
      ensures key != OtherKey ==> isPlaying == (old(isPlaying) || currentPath.Some?)
      ensures key == OtherKey ==> isPlaying == old(isPlaying)
      ensures segment.Some? <==> key != OtherKey && !old(isPlaying) && currentPath.Some?
      ensures segment.Some? ==>
                segment.value == SegmentOf(currentPath.value, currentFrame, playbackDirection, animationSpeed, mapBearing, bearing)
    {
      segment := None;
      if key == ArrowLeft {
        playbackDirection := -1;
        if !isPlaying {
          segment := StartAnimation(mapBearing, bearing);
        }
      } else if key == ArrowRight {
        if playbackDirection == -1 {
          playbackDirection := 1;
        } else {
          animationSpeed := animationSpeed * 2.0;
        }
        if !isPlaying {
          segment := StartAnimation(mapBearing, bearing);
        }
      }
    }

    /** The play/pause button: stops a running animation, starts a stopped one. */
    method PlayPause(mapBearing: real, bearing: BearingFn) returns (segment: Option<Segment>)
      requires Valid()
      modifies this`isPlaying
      ensures Valid()
      ensures old(isPlaying) ==> !isPlaying && segment.None?
      ensures !old(isPlaying) ==> isPlaying == currentPath.Some?
      ensures segment.Some? <==> !old(isPlaying) && currentPath.Some?
      ensures segment.Some? ==>
                segment.value == SegmentOf(currentPath.value, currentFrame, playbackDirection, animationSpeed, mapBearing, bearing)
    {
      segment := None;
      if isPlaying {
        var _ := StopAnimation();
      } else {
        segment := StartAnimation(mapBearing, bearing);
      }
    }

    /** The fast-forward button doubles the speed. */
    method FastForward()
      requires Valid()
      modifies this`animationSpeed
      ensures Valid() && animationSpeed == 2.0 * old(animationSpeed)
    {
      animationSpeed := animationSpeed * 2.0;
    }

    /** The rewind button halves the speed, which stays positive. */
    method Rewind()
      requires Valid()
      modifies this`animationSpeed
      ensures Valid() && animationSpeed == old(animationSpeed) / 2.0
    {
      animationSpeed := animationSpeed / 2.0;
    }

    /**
     * Dragging the progress bar to `value` (0 to 100): with a path selected,
     * jumps to the waypoint at that share of the path and returns it, the
     * right end selecting the last waypoint; with none, nothing changes.
     */
    method Seek(value: real) returns (point: Option<Waypoint>)
      requires Valid() && 0.0 <= value <= 100.0
      modifies this`currentFrame
      ensures Valid()
      ensures currentPath.None? ==> point.None? && currentFrame == old(currentFrame)
      ensures currentPath.Some? ==>
                && currentFrame == SeekIndex(value, |currentPath.value|)
                && point == Some(currentPath.value[currentFrame])
    {
      if currentPath.None? {
        return None;
      }
      var frame := SeekIndex(value, |currentPath.value|);
      currentFrame := frame;
      point := Some(currentPath.value[currentFrame]);
    }
  }
}
