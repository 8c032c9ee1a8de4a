/**
 * The earlier flyover player (app.js). It keeps the same playback state and
 * handlers as the current one, but moves a whole waypoint at a time: `animate`
 * sends the camera on a linear `flyTo` to the current waypoint, facing the
 * next one, and each `moveend` event of the map steps the frame index and
 * starts the next flight. Its loader falls back to an altitude of 1000.
 *
 * Mapbox and the DOM are outside the model: `calculateBearing` is a
 * parameter, and the flight that would be requested is returned.
 */
module FlyoverDraft {
  import opened Wrappers
  import opened Waypoints
  import opened Playback
  import Csv

  /** The altitude a waypoint gets when its altitude field is missing, non-numeric or 0. */
  const DefaultAltitude: real := 1000.0
  /** `animationSpeed` when the page starts and after every `loadPath`. */
  const InitialSpeed: real := 4.0
  /** A flight lasts this many milliseconds at speed 1. */
  const BaseDurationMs: real := 3000.0

  /**
   * What `animate` asks of the map — a linear `flyTo` to waypoint `at`, facing
   * `bearing` (towards waypoint `toward`), lasting `durationMs` — and the
   * progress bar value it sets.
   */
  datatype Flight = Flight(at: Waypoint, toward: Waypoint, bearing: real, durationMs: real, progress: real)

  /**
   * The flight `animate` starts from frame `frame` of `path`: it goes to the
   * current waypoint facing the next one, lasts 3000 / speed milliseconds,
   * and puts the progress bar in [0, 100).
   */
  function FlightOf(path: seq<Waypoint>, frame: int, direction: int, speed: real, bearing: BearingFn): (flight: Flight)
    requires 0 <= frame < |path| && speed > 0.0
    ensures flight.at == path[frame] && flight.toward in path
    ensures flight.bearing == bearing(flight.at, flight.toward)
    ensures flight.durationMs * speed == BaseDurationMs
    ensures 0.0 <= flight.progress < 100.0
  {
    var next := NextFrame(frame, direction, |path|);
    Flight(path[frame], path[next], bearing(path[frame], path[next]), BaseDurationMs / speed, Progress(frame, |path|))
  }

  /**
   * A flight faces the neighbour of the current waypoint in the playback
   * direction: the first waypoint after the last one, the last before the
   * first.
   */
  lemma FlightShape(path: seq<Waypoint>, frame: int, direction: int, speed: real, bearing: BearingFn)
    requires 0 <= frame < |path| && speed > 0.0 && IsDirection(direction)
    ensures FlightOf(path, frame, direction, speed, bearing).toward == path[(frame + direction) % |path|]
    ensures direction == 1 && frame == |path| - 1 ==> FlightOf(path, frame, direction, speed, bearing).toward == path[0]
    ensures direction == -1 && frame == 0 ==> FlightOf(path, frame, direction, speed, bearing).toward == path[|path| - 1]
  {
    NextFrameIsModular(frame, direction, |path|);
  }

  class Player {
    /** The paths of the loaded refuge, by path name. */
    var flyoverData: map<string, seq<Waypoint>>
    /** The selected path; `None` is `undefined`. */
    var currentPath: Option<seq<Waypoint>>
    var currentFrame: int
    var isPlaying: bool
    var animationSpeed: real
    var playbackDirection: int

    /**
     * The direction is ±1, the speed positive, every loaded path non-empty,
     * the frame an index of the selected path, and playing implies a path.
     */
    ghost predicate Valid()
      reads this
    {
      && IsDirection(playbackDirection)
      && animationSpeed > 0.0
      && (forall name :: name in flyoverData ==> flyoverData[name] != [])
      && (currentPath.Some? ==> 0 <= currentFrame < |currentPath.value|)
      && (isPlaying ==> currentPath.Some?)
    }

    /** The state when the page loads. */
    constructor()
      ensures Valid()
      ensures flyoverData == map[] && currentPath == None
      ensures currentFrame == 0 && !isPlaying && animationSpeed == InitialSpeed && playbackDirection == 1
    {
      flyoverData := map[];
      currentPath := None;
      currentFrame := 0;
      isPlaying := false;
      animationSpeed := InitialSpeed;
      playbackDirection := 1;
    }

    /** `flyoverData = await loadFlyoverData(...)`, given the text of the refuge's CSV file. */
    method LoadDataset(csvData: string)
      requires Valid()
      modifies this`flyoverData
      ensures Valid()
      ensures flyoverData == Csv.ParsedPaths(csvData, DefaultAltitude)
    {
      flyoverData := Csv.ParseCsv(csvData, DefaultAltitude);
      forall name | name in flyoverData
        ensures flyoverData[name] != []
      {
        Csv.LoadedPath(csvData, DefaultAltitude, name);
      }
    }

    /**
     * `loadRefuge`: loads the CSV text and selects its first path, if any;
     * `flying` says whether the camera set off for the start of a path.
     */
    method LoadRefuge(csvData: string) returns (flying: bool)
      requires Valid()
      modifies this`flyoverData, this`currentPath, this`currentFrame, this`animationSpeed, this`isPlaying
      ensures Valid()
      ensures flyoverData == Csv.ParsedPaths(csvData, DefaultAltitude)
      ensures var pathNames := Csv.PathNames(csvData, DefaultAltitude);
              && (pathNames != [] ==> pathNames[0] in flyoverData && currentPath == Some(flyoverData[pathNames[0]])
                                      && currentFrame == 0 && animationSpeed == InitialSpeed && !isPlaying)
              && (pathNames == [] ==> currentPath == old(currentPath) && currentFrame == old(currentFrame)
                                      && animationSpeed == old(animationSpeed) && isPlaying == old(isPlaying))
              && flying == (pathNames != [])
    {
      LoadDataset(csvData);
      var pathNames := Csv.PathNames(csvData, DefaultAltitude);
      Csv.PathNamesAreKeys(csvData, DefaultAltitude);
      flying := false;
      if |pathNames| > 0 {
        flying := LoadPath(pathNames[0]);
      }
    }

    /**
     * `loadPath`: selects the path (`None` when the data has no such name),
     * rewinds to its first waypoint, resets the speed and stops playback.
     * `flying` says whether the camera set off for the start of the path, after
     * which the map's next `moveend` starts the animation.
     */
    method LoadPath(pathName: string) returns (flying: bool)
      requires Valid()
      modifies this`currentPath, this`currentFrame, this`animationSpeed, this`isPlaying
      ensures Valid()
      ensures currentPath == (if pathName in flyoverData then Some(flyoverData[pathName]) else None)
      ensures currentFrame == 0 && animationSpeed == InitialSpeed && !isPlaying
      ensures flying <==> pathName in flyoverData
    {
      currentPath := if pathName in flyoverData then Some(flyoverData[pathName]) else None;
      currentFrame := 0;
      animationSpeed := InitialSpeed;
      var _ := StopAnimation();
      flying := currentPath.Some? && |currentPath.value| > 0;
    }

    /**
     * `startAnimation`: does nothing while playing or with no path selected;
     * otherwise starts playing and runs `animate`, whose flight it returns.
     */
    method StartAnimation(bearing: BearingFn) returns (flight: Option<Flight>)
      requires Valid()
      modifies this`isPlaying
      ensures Valid()
      ensures isPlaying == (old(isPlaying) || currentPath.Some?)
      ensures flight.Some? <==> !old(isPlaying) && currentPath.Some?
      ensures flight.Some? ==>
                flight.value == FlightOf(currentPath.value, currentFrame, playbackDirection, animationSpeed, bearing)
    {
      if isPlaying || currentPath.None? {
        return None;
      }
      isPlaying := true;
      flight := Animate(bearing);
    }

    /** `stopAnimation`: stops playing; `stopped` says whether it was playing (and the icons changed). */
    method StopAnimation() returns (stopped: bool)
      modifies this`isPlaying
      ensures !isPlaying && stopped == old(isPlaying)
    {
      if !isPlaying {
        return false;
      }
      isPlaying := false;
      stopped := true;
    }

    /**
     * `animate`: when playing, the flight to the current waypoint, facing the
     * next one in the playback direction, wrapping around the ends of the path.
     */
    method Animate(bearing: BearingFn) returns (flight: Option<Flight>)
      requires Valid()
      ensures flight.Some? <==> isPlaying
      ensures flight.Some? ==>
                flight.value == FlightOf(currentPath.value, currentFrame, playbackDirection, animationSpeed, bearing)
    {
      if !isPlaying {
        return None;
      }
      var path := currentPath.value;
      var currentPoint := path[currentFrame];
      var nextFrameIndex := currentFrame + playbackDirection;
      if nextFrameIndex >= |path| {
        nextFrameIndex := 0;
      }
      if nextFrameIndex < 0 {
        nextFrameIndex := |path| - 1;
      }
      var nextPoint := path[nextFrameIndex];
      flight := Some(Flight(currentPoint, nextPoint, bearing(currentPoint, nextPoint),
                            BaseDurationMs / animationSpeed, currentFrame as real / |path| as real * 100.0));
    }

    /**
     * The map's `moveend`: while playing, the frame index steps in the
     * playback direction, wrapping around, and the next flight starts;
     * otherwise nothing changes.
     */
    method MoveEnd(bearing: BearingFn) returns (flight: Option<Flight>)
      requires Valid()
      modifies this`currentFrame
      ensures Valid()
      ensures !isPlaying ==> flight.None? && currentFrame == old(currentFrame)
      ensures isPlaying ==>
                && currentFrame == NextFrame(old(currentFrame), playbackDirection, |currentPath.value|)
                && flight == Some(FlightOf(currentPath.value, currentFrame, playbackDirection, animationSpeed, bearing))
    {
      flight := None;
      if isPlaying {
        var length := |currentPath.value|;
        currentFrame := currentFrame + playbackDirection;
        if currentFrame >= length {
          currentFrame := 0;
        } else if currentFrame < 0 {
          currentFrame := length - 1;
        }
        flight := Animate(bearing);
      }
    }

    /**
     * The keyboard: ArrowLeft plays backwards; ArrowRight turns a backwards
     * playback forwards, and otherwise doubles the speed; either starts the
     * animation when it is not running. Other keys change nothing.
     */
    method KeyDown(key: Key, bearing: BearingFn) returns (flight: Option<Flight>)
      requires Valid()
      modifies this`playbackDirection, this`animationSpeed, this`isPlaying
      ensures Valid()
      ensures key == ArrowLeft ==> playbackDirection == -1 && animationSpeed == old(animationSpeed)
      ensures key == ArrowRight && old(playbackDirection) == -1 ==>
                playbackDirection == 1 && animationSpeed == old(animationSpeed)
      ensures key == ArrowRight && old(playbackDirection) == 1 ==>
                playbackDirection == 1 && animationSpeed == 2.0 * old(animationSpeed)
      ensures key == OtherKey ==>
                playbackDirection == old(playbackDirection) && animationSpeed == old(animationSpeed) && flight.None?
      ensures key != OtherKey ==> isPlaying == (old(isPlaying) || currentPath.Some?)
      ensures key == OtherKey ==> isPlaying == old(isPlaying)
      ensures flight.Some? <==> key != OtherKey && !old(isPlaying) && currentPath.Some?
      ensures flight.Some? ==>
                flight.value == FlightOf(currentPath.value, currentFrame, playbackDirection, animationSpeed, bearing)
    {
      flight := None;
      if key == ArrowLeft {
        playbackDirection := -1;
        if !isPlaying {
          flight := StartAnimation(bearing);
        }
      } else if key == ArrowRight {
        if playbackDirection == -1 {
          playbackDirection := 1;
        } else {
          animationSpeed := animationSpeed * 2.0;
        }
        if !isPlaying {
          flight := StartAnimation(bearing);
        }
      }
    }

    /** The play/pause button: stops a running animation, starts a stopped one. */
    method PlayPause(bearing: BearingFn) returns (flight: Option<Flight>)
      requires Valid()
      modifies this`isPlaying
      ensures Valid()
      ensures old(isPlaying) ==> !isPlaying && flight.None?
      ensures !old(isPlaying) ==> isPlaying == currentPath.Some?
      ensures flight.Some? <==> !old(isPlaying) && currentPath.Some?
      ensures flight.Some? ==>
                flight.value == FlightOf(currentPath.value, currentFrame, playbackDirection, animationSpeed, bearing)
    {
      flight := None;
      if isPlaying {
        var _ := StopAnimation();
      } else {
        flight := StartAnimation(bearing);
      }
    }

    /** The fast-forward button doubles the speed. */
    method FastForward()
      requires Valid()
      modifies this`animationSpeed
      ensures Valid() && animationSpeed == 2.0 * old(animationSpeed)
    {
      animationSpeed := animationSpeed * 2.0;
    }

    /** The rewind button halves the speed, which stays positive. */
    method Rewind()
      requires Valid()
      modifies this`animationSpeed
      ensures Valid() && animationSpeed == old(animationSpeed) / 2.0
    {
      animationSpeed := animationSpeed / 2.0;
    }

    /**
     * Dragging the progress bar to `value` (0 to 100): with a path selected,
     * jumps to the waypoint at that share of the path and returns it, the
     * right end selecting the last waypoint; with none, nothing changes.
     */
    method Seek(value: real) returns (point: Option<Waypoint>)
      requires Valid() && 0.0 <= value <= 100.0
      modifies this`currentFrame
      ensures Valid()
      ensures currentPath.None? ==> point.None? && currentFrame == old(currentFrame)
      ensures currentPath.Some? ==>
                && currentFrame == SeekIndex(value, |currentPath.value|)
                && point == Some(currentPath.value[currentFrame])
    {
      if currentPath.None? {
        return None;
      }
      var frame := SeekIndex(value, |currentPath.value|);
      currentFrame := frame;
      point := Some(currentPath.value[currentFrame]);
    }
  }
}
