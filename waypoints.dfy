/**
 * Waypoints as the flyover loader builds them, and the stable sort by
 * timestamp that orders each path.
 */
module Waypoints {

  /** A JavaScript number as `parseFloat` produces it: NaN, or a finite value. */
  datatype Num = NaN | Finite(value: real)

  /** One timestamped sample of a path. Altitude and timestamp are never NaN (both have `||` fallbacks). */
  datatype Waypoint = Waypoint(longitude: Num, latitude: Num, altitude: real, timestamp: int)

  /**
   * `calculateBearing` applied to the latitude and longitude of two
   * waypoints: its trigonometry is outside the model, so the players take it
   * as a parameter.
   */
  type BearingFn = (Waypoint, Waypoint) -> real

  ghost predicate SortedByTimestamp(s: seq<Waypoint>) {
    forall i, j :: 0 <= i < j < |s| ==> s[i].timestamp <= s[j].timestamp
  }

  /** The waypoints of `s` whose timestamp is `ts`, in their order in `s`. */
  function WithTimestamp(s: seq<Waypoint>, ts: int): seq<Waypoint> {
    if s == [] then []
    else (if s[0].timestamp == ts then [s[0]] else []) + WithTimestamp(s[1..], ts)
  }

  /** Inserts `w` before the first waypoint whose timestamp is not smaller. */
  function Insert(w: Waypoint, s: seq<Waypoint>): (r: seq<Waypoint>)
    ensures multiset(r) == multiset(s) + multiset{w}
  {
    if s == [] || w.timestamp <= s[0].timestamp then [w] + s
    else
      assert s == [s[0]] + s[1..];
      [s[0]] + Insert(w, s[1..])
  }

  /**
   * `path.sort((a, b) => a.timestamp - b.timestamp)`: the result is ordered
   * by timestamp and is a permutation of the input. The comparator only
   * looks at timestamps and JavaScript's sort is stable, so equal timestamps
   * keep their input order (`SortByTimestampStable`); an insertion sort from
   * the back has exactly that behaviour.
   */
  function SortByTimestamp(s: seq<Waypoint>): (r: seq<Waypoint>)
    ensures SortedByTimestamp(r)
    ensures multiset(r) == multiset(s)
  {
    if s == [] then []
    else
      var rest := SortByTimestamp(s[1..]);
      InsertSorted(s[0], rest);
      assert s == [s[0]] + s[1..];
      Insert(s[0], rest)
  }

  lemma {:induction false} InsertSorted(w: Waypoint, s: seq<Waypoint>)
    requires SortedByTimestamp(s)
    ensures SortedByTimestamp(Insert(w, s))
  {
    if s != [] && w.timestamp > s[0].timestamp {
      InsertSorted(w, s[1..]);
      var r := Insert(w, s[1..]);
      forall x | x in r ensures s[0].timestamp <= x.timestamp {
        assert x in multiset(r);
        assert x == w || x in multiset(s[1..]);
      }
      assert forall j :: 0 <= j < |r| ==> r[j] in r;
    }
  }

  lemma {:induction false} InsertStable(w: Waypoint, s: seq<Waypoint>, ts: int)
    ensures WithTimestamp(Insert(w, s), ts) == (if w.timestamp == ts then [w] else []) + WithTimestamp(s, ts)
  {
    if s == [] || w.timestamp <= s[0].timestamp {
      assert ([w] + s)[1..] == s;
    } else {
      InsertStable(w, s[1..], ts);
      assert ([s[0]] + Insert(w, s[1..]))[1..] == Insert(w, s[1..]);
    }
  }

  /** The sort keeps the input order among waypoints with equal timestamps. */
  lemma {:induction false} SortByTimestampStable(s: seq<Waypoint>, ts: int)
    ensures WithTimestamp(SortByTimestamp(s), ts) == WithTimestamp(s, ts)
  {
    if s != [] {
      var rest := SortByTimestamp(s[1..]);
      assert SortByTimestamp(s) == Insert(s[0], rest);
      SortByTimestampStable(s[1..], ts);
      InsertStable(s[0], rest, ts);
      assert WithTimestamp(s, ts) == (if s[0].timestamp == ts then [s[0]] else []) + WithTimestamp(s[1..], ts);
    }
  }
}
