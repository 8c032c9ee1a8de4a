/**
 * The arithmetic both versions of the flyover player share: wrapping a frame
 * index around the ends of a path, turning the camera by the shorter way
 * round, linear interpolation inside a segment, `Math.round`, and the
 * conversions between a frame index and the 0..100 progress bar.
 *
 * Numbers are unbounded (`int`, `real`): the model does not follow IEEE-754
 * rounding of the doubles the player computes with.
 */
module Playback {

  /** The keys the keyboard handler tells apart. */
  datatype Key = ArrowLeft | ArrowRight | OtherKey

  /** A playback direction: +1 forwards, -1 backwards. */
  predicate IsDirection(direction: int) {
    direction == 1 || direction == -1
  }

  /**
   * An index moved one step past either end of a path of `length` waypoints
   * wraps to the other end: at or past the end it becomes 0, below 0 it
   * becomes the last index. `animate` writes this as two `if`s, `frame` and
   * the `moveend` handler as `if`/`else if`; they agree because 0 is not
   * negative.
   */
  function Wrap(index: int, length: nat): (wrapped: int)
    requires length > 0
    ensures 0 <= wrapped < length
    ensures 0 <= index < length ==> wrapped == index
    ensures index >= length ==> wrapped == 0
    ensures index < 0 ==> wrapped == length - 1
  {
    var next := if index >= length then 0 else index;
    if next < 0 then length - 1 else next
  }

  /** The frame after `current` in `direction`, wrapping around the ends of the path. */
  function NextFrame(current: int, direction: int, length: nat): (next: int)
    requires length > 0
    ensures 0 <= next < length
  {
    Wrap(current + direction, length)
  }

  /** For a valid frame and direction the next frame is the modular successor or predecessor. */
  lemma NextFrameIsModular(current: int, direction: int, length: nat)
    requires length > 0 && 0 <= current < length && IsDirection(direction)
    ensures NextFrame(current, direction, length) == (current + direction) % length
    ensures direction == 1 && current == length - 1 ==> NextFrame(current, direction, length) == 0
    ensures direction == -1 && current == 0 ==> NextFrame(current, direction, length) == length - 1
  {
    if current + direction == length {
      assert (current + direction) % length == 0;
    } else if current + direction == -1 {
      assert (current + direction) % length == length - 1;
    } else {
      assert 0 <= current + direction < length;
    }
  }

  /** The frame reached from `current` after `steps` completed segments in `direction`. */
  function Advance(current: int, direction: int, length: nat, steps: nat): (frame: int)
    requires length > 0
  {
    if steps == 0 then current else NextFrame(Advance(current, direction, length, steps - 1), direction, length)
  }

  /** `steps` segments move a valid frame `steps` places along the path, modulo its length. */
  lemma {:induction false} AdvanceIsModular(current: int, direction: int, length: nat, steps: nat)
    requires length > 0 && 0 <= current < length && IsDirection(direction)
    ensures Advance(current, direction, length, steps) == (current + direction * steps) % length
  {
    if steps > 0 {
      var before := Advance(current, direction, length, steps - 1);
      AdvanceIsModular(current, direction, length, steps - 1);
      NextFrameIsModular(before, direction, length);
      ModAddStep(current + direction * (steps - 1), direction, length);
    }
  }

  lemma ModAddStep(x: int, d: int, length: nat)
    requires length > 0
    ensures (x % length + d) % length == (x + d) % length
  {
    var q := x / length;
    assert x == q * length + x % length;
    ModShift(x % length + d, q, length);
  }

  lemma ModShift(y: int, q: int, length: nat)
    requires length > 0
    ensures (y + q * length) % length == y % length
  {
    var r := y % length;
    var p := y / length;
    assert y + q * length == (p + q) * length + r;
    ModUnique(y + q * length, p + q, r, length);
  }

  lemma ModUnique(x: int, q: int, r: int, length: nat)
    requires length > 0 && 0 <= r < length && x == q * length + r
    ensures x % length == r
  {
    var q', r' := x / length, x % length;
    assert q' * length + r' == q * length + r;
    if q' < q {
      assert (q - q') * length == r' - r;
      MulAtLeast(q - q', length);
    } else if q' > q {
      assert (q' - q) * length == r - r';
      MulAtLeast(q' - q, length);
    }
  }

  lemma {:induction false} MulAtLeast(k: int, length: nat)
    requires k >= 1
    ensures k * length >= length
  {
    if k > 1 {
      MulAtLeast(k - 1, length);
      assert k * length == (k - 1) * length + length;
    }
  }

  /** Reversing direction for as many segments retraces the path back to the starting frame. */
  lemma AdvanceThenReverse(current: int, direction: int, length: nat, steps: nat)
    requires length > 0 && 0 <= current < length && IsDirection(direction)
    ensures Advance(Advance(current, direction, length, steps), -direction, length, steps) == current
  {
    var there := Advance(current, direction, length, steps);
    var shift := direction * steps;
    AdvanceIsModular(current, direction, length, steps);
    AdvanceIsModular(there, -direction, length, steps);
    assert -direction * steps == -shift;
    ModAddStep(current + shift, -shift, length);
    BackToStart(current, 0, length);
  }

  /** A valid frame shifted by whole laps is the same frame modulo the length. */
  lemma BackToStart(current: int, laps: int, length: nat)
    requires length > 0 && 0 <= current < length
    ensures (current + laps * length) % length == current
  {
    ModUnique(current + laps * length, laps, current, length);
  }

  /** A full lap of `length` segments returns to the starting frame. */
  lemma FullLap(current: int, direction: int, length: nat)
    requires length > 0 && 0 <= current < length && IsDirection(direction)
    ensures Advance(current, direction, length, length) == current
  {
    AdvanceIsModular(current, direction, length, length);
    BackToStart(current, direction, length);
  }

  // ---------------------------------------------------------------------------
  // bearings

  /**
   * The turn from the map's bearing to the target bearing, brought to the
   * shorter way round: more than 180 degrees becomes a turn the other way.
   * The result is congruent to the difference modulo 360 and, for every
   * difference the player can produce, within [-180, 180].
   */
  function NormalizeBearingDiff(diff: real): (turn: real)
    ensures turn == diff || turn == diff - 360.0 || turn == diff + 360.0
    ensures -540.0 <= diff <= 540.0 ==> -180.0 <= turn <= 180.0
  {
    var turn := if diff > 180.0 then diff - 360.0 else diff;
    if turn < -180.0 then turn + 360.0 else turn
  }

  /** No whole number of extra turns gives a shorter rotation than the normalised one. */
  lemma ShortestRotation(diff: real, turns: int)
    requires -540.0 <= diff <= 540.0
    ensures var turn := NormalizeBearingDiff(diff);
            Abs(turn) <= Abs(diff + 360.0 * turns as real)
  {
    var turn := NormalizeBearingDiff(diff);
    var k: int := if turn == diff then 0 else if turn == diff - 360.0 then -1 else 1;
    assert diff + 360.0 * turns as real == turn + 360.0 * (turns - k) as real;
    if turns - k >= 1 {
      assert 360.0 * (turns - k) as real >= 360.0;
    } else if turns - k <= -1 {
      assert 360.0 * (turns - k) as real <= -360.0;
    }
  }

  /**
   * A target bearing from `calculateBearing` lies in [0, 360) and Mapbox
   * reports the map bearing in [-180, 180]; their difference then always
   * normalises to a turn of at most half a circle that ends on the target.
   */
  lemma TurnReachesTarget(target: real, start: real)
    requires 0.0 <= target < 360.0 && -180.0 <= start <= 180.0
    ensures var turn := NormalizeBearingDiff(target - start);
            && -180.0 <= turn <= 180.0
            && (start + turn == target || start + turn == target - 360.0 || start + turn == target + 360.0)
  {
  }

  function Abs(x: real): real {
    if x < 0.0 then -x else x
  }

  // ---------------------------------------------------------------------------
  // interpolation

  /** `a + (b - a) * t`: the point a fraction `t` of the way from `a` to `b`. */
  function Lerp(a: real, b: real, t: real): (x: real)
    ensures t == 0.0 ==> x == a
    ensures t == 1.0 ==> x == b
    ensures 0.0 <= t <= 1.0 ==> Min(a, b) <= x <= Max(a, b)
  {
    var x := a + (b - a) * t;
    LerpFacts(a, b, t, x);
    x
  }

  lemma LerpFacts(a: real, b: real, t: real, x: real)
    requires x == a + (b - a) * t
    ensures t == 0.0 ==> x == a
    ensures t == 1.0 ==> x == b
    ensures 0.0 <= t <= 1.0 ==> Min(a, b) <= x <= Max(a, b)
  {
    var d := b - a;
    var dt := d * t;
    assert x == a + dt;
    if t == 0.0 {
      assert dt == 0.0;
    } else if t == 1.0 {
      assert dt == d;
    }
    ScaleWithin(d, t);
    if 0.0 <= t <= 1.0 {
      if a <= b {
        assert 0.0 <= dt <= d;
        assert a <= x <= b;
      } else {
        assert d <= dt <= 0.0;
        assert b <= x <= a;
      }
    }
  }

  lemma ScaleWithin(d: real, t: real)
    ensures 0.0 <= t <= 1.0 && d >= 0.0 ==> 0.0 <= d * t <= d
    ensures 0.0 <= t <= 1.0 && d <= 0.0 ==> d <= d * t <= 0.0
  {
    if 0.0 <= t <= 1.0 {
      if d >= 0.0 {
        assert d * t <= d * 1.0;
      } else {
        assert d * t >= d * 1.0;
      }
    }
  }

  function Min(a: real, b: real): real {
    if a <= b then a else b
  }

  function Max(a: real, b: real): real {
    if a <= b then b else a
  }

  // ---------------------------------------------------------------------------
  // rounding and the progress bar

  /** `Math.round(x)`: the nearest integer, halves rounded up. */
  function Round(x: real): (n: int)
    ensures n as real <= x + 0.5 < n as real + 1.0
  {
    (x + 0.5).Floor
  }

  /** Rounding never moves past an integer bound. */
  lemma RoundWithin(x: real, lo: int, hi: int)
    requires lo as real <= x <= hi as real
    ensures lo <= Round(x) <= hi
  {
  }

  /** `Math.round(x)` of an integer is that integer. */
  lemma RoundInteger(n: int)
    ensures Round(n as real) == n
  {
  }

  /**
   * The seek handler as written: `Math.round(value / 100 * length)`. It lies
   * in [0, length] — one past the last index is reachable.
   */
  function SeekIndexAsWritten(value: real, length: nat): (index: int)
    requires 0.0 <= value <= 100.0
    ensures 0 <= index <= length
  {
    var position := value / 100.0 * length as real;
    assert 0.0 <= position <= length as real by {
      ScaleWithin(length as real, value / 100.0);
      assert position == length as real * (value / 100.0);
    }
    RoundWithin(position, 0, length);
    Round(position)
  }

  /** Dragging the progress bar to its right end selects index `length`, past the last waypoint. */
  lemma SeekToEndOverruns(length: nat)
    requires length > 0
    ensures SeekIndexAsWritten(100.0, length) == length
  {
    RoundInteger(length);
  }

  /**
   * The seek clamped to the last waypoint: the rounded position, moved back
   * onto the last waypoint when it falls one past it.
   */
  function SeekIndex(value: real, length: nat): (index: int)
    requires 0.0 <= value <= 100.0 && length > 0
    ensures 0 <= index < length
    ensures SeekIndexAsWritten(value, length) < length ==> index == SeekIndexAsWritten(value, length)
    ensures SeekIndexAsWritten(value, length) == length ==> index == length - 1
  {
    var index := SeekIndexAsWritten(value, length);
    if index == length then length - 1 else index
  }

  /** `currentFrame / currentPath.length * 100`: the progress bar position of a frame. */
  function Progress(frame: int, length: nat): (value: real)
    requires length > 0
    ensures 0 <= frame < length ==> 0.0 <= value < 100.0
    ensures frame == 0 ==> value == 0.0
  {
    var fraction := frame as real / length as real;
    assert 0 <= frame < length ==> fraction < 1.0 by {
      if 0 <= frame < length {
        assert frame as real < length as real;
      }
    }
    fraction * 100.0
  }

  /** Seeking to the position the bar shows for a frame lands on that frame. */
  lemma SeekProgress(frame: int, length: nat)
    requires length > 0 && 0 <= frame < length
    ensures SeekIndex(Progress(frame, length), length) == frame
  {
    var value := Progress(frame, length);
    assert value / 100.0 * length as real == frame as real;
    RoundInteger(frame);
  }

  /**
   * `(currentFrame + t * playbackDirection) / currentPath.length * 100`: the
   * bar position a fraction `t` into the segment that leaves `frame`.
   */
  function SegmentProgress(frame: int, t: real, direction: int, length: nat): (value: real)
    requires length > 0
    ensures t == 0.0 ==> value == Progress(frame, length)
  {
    (frame as real + t * direction as real) / length as real * 100.0
  }

  /**
   * Moving forwards, or backwards from any frame but the first, the bar
   * stays within [0, 100] during a segment.
   */
  lemma SegmentProgressInRange(frame: int, t: real, direction: int, length: nat)
    requires length > 0 && 0 <= frame < length && IsDirection(direction) && 0.0 <= t < 1.0
    requires direction == -1 ==> frame > 0
    ensures 0.0 <= SegmentProgress(frame, t, direction, length) <= 100.0
  {
    var x := frame as real + t * direction as real;
    assert 0.0 <= x <= length as real;
    assert x / length as real <= 1.0;
  }

  /** Backwards out of the first frame the expression goes below 0, which the range input clamps. */
  lemma SegmentProgressBelowZero(t: real, length: nat)
    requires length > 0 && 0.0 < t < 1.0
    ensures SegmentProgress(0, t, -1, length) < 0.0
  {
    assert -t / length as real < 0.0;
  }
}
