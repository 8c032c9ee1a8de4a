/**
 * The part of JavaScript's built-in string and number functions that the
 * flyover code relies on: `String.prototype.split` and `Array.prototype.join`
 * with a one-character separator, `parseInt` and `parseFloat` on decimal text,
 * `String(n)` for a natural number, `indexOf`, `replace` with a string pattern
 * (first occurrence) and `replace` with a global literal pattern.
 */
module JsText {
  import opened Wrappers

  // ---------------------------------------------------------------------------
  // split and join

  /** `s.split(sep)`: the pieces between separators; there is always one more piece than separators. */
  function Split(s: string, sep: char): (parts: seq<string>)
    ensures |parts| >= 1
    ensures forall i :: 0 <= i < |parts| ==> sep !in parts[i]
    decreases |s|
  {
    if s == [] then [[]]
    else
      var rest := Split(s[1..], sep);
      if s[0] == sep then [[]] + rest
      else [[s[0]] + rest[0]] + rest[1..]
  }

  /** `parts.join(sep)`. */
  function Join(parts: seq<string>, sep: char): string
    requires |parts| >= 1
    decreases |parts|
  {
    if |parts| == 1 then parts[0] else parts[0] + [sep] + Join(parts[1..], sep)
  }

  /** Joining the pieces of a split gives back the text. */
  lemma {:induction false} JoinSplit(s: string, sep: char)
    ensures Join(Split(s, sep), sep) == s
    decreases |s|
  {
    if s != [] {
      JoinSplit(s[1..], sep);
      var rest := Split(s[1..], sep);
      if s[0] == sep {
        assert ([[]] + rest)[1..] == rest;
      } else if |rest| > 1 {
        assert ([[s[0]] + rest[0]] + rest[1..])[1..] == rest[1..];
      }
    }
  }

  /** Text without the separator is a single piece. */
  lemma {:induction false} SplitWithoutSeparator(a: string, sep: char)
    requires sep !in a
    ensures Split(a, sep) == [a]
    decreases |a|
  {
    if a != [] {
      SplitWithoutSeparator(a[1..], sep);
      assert [a[0]] + a[1..] == a;
    }
  }

  /** A piece followed by a separator splits off as the first piece. */
  lemma {:induction false} SplitAfterSeparator(a: string, sep: char, b: string)
    requires sep !in a
    ensures Split(a + [sep] + b, sep) == [a] + Split(b, sep)
    decreases |a|
  {
    if a == [] {
      assert a + [sep] + b == [sep] + b;
      assert ([sep] + b)[1..] == b;
    } else {
      SplitAfterSeparator(a[1..], sep, b);
      assert (a + [sep] + b)[1..] == a[1..] + [sep] + b;
      assert [a[0]] + a[1..] == a;
    }
  }

  /** Splitting a join of separator-free pieces gives back the pieces. */
  lemma {:induction false} SplitJoin(parts: seq<string>, sep: char)
    requires |parts| >= 1
    requires forall i :: 0 <= i < |parts| ==> sep !in parts[i]
    ensures Split(Join(parts, sep), sep) == parts
    decreases |parts|
  {
    if |parts| == 1 {
      SplitWithoutSeparator(parts[0], sep);
    } else {
      SplitJoin(parts[1..], sep);
      SplitAfterSeparator(parts[0], sep, Join(parts[1..], sep));
      assert [parts[0]] + parts[1..] == parts;
    }
  }

  /** A character that is neither the separator nor in any piece is not in their join. */
  lemma {:induction false} JoinWithout(parts: seq<string>, sep: char, c: char)
    requires |parts| >= 1 && c != sep
    requires forall i :: 0 <= i < |parts| ==> c !in parts[i]
    ensures c !in Join(parts, sep)
    decreases |parts|
  {
    if |parts| > 1 {
      JoinWithout(parts[1..], sep, c);
    }
  }

  // ---------------------------------------------------------------------------
  // parseInt, parseFloat and String(n)

  predicate IsDigit(c: char) {
    '0' <= c <= '9'
  }

  predicate AllDigits(d: string) {
    forall i :: 0 <= i < |d| ==> IsDigit(d[i])
  }

  /**
   * The white space that `parseInt` and `parseFloat` skip before the number:
   * the ECMAScript WhiteSpace characters (tab, vertical tab, form feed, the
   * byte order mark and the Unicode space separators) and line terminators.
   */
  predicate IsSpace(c: char) {
    || c == '\t' || c == '\n' || c == '\U{000B}' || c == '\U{000C}' || c == '\r' || c == ' '
    || c == '\U{00A0}' || c == '\U{1680}' || '\U{2000}' <= c <= '\U{200A}'
    || c == '\U{2028}' || c == '\U{2029}' || c == '\U{202F}' || c == '\U{205F}'
    || c == '\U{3000}' || c == '\U{FEFF}'
  }

  /** `s` without its leading white space. */
  function TrimStart(s: string): (r: string)
    ensures |r| <= |s| && r == s[|s| - |r|..]
    ensures forall i :: 0 <= i < |s| - |r| ==> IsSpace(s[i])
    ensures r == [] || !IsSpace(r[0])
  {
    if s != [] && IsSpace(s[0]) then
      var r := TrimStart(s[1..]);
      assert s[1..][|s| - 1 - |r|..] == s[|s| - |r|..];
      assert forall i :: 1 <= i < |s| - |r| ==> s[i] == s[1..][i - 1];
      r
    else s
  }

  /** An optional leading sign: whether it is '-', and the text after it. */
  function SplitSign(s: string): (bool, string) {
    if s != [] && (s[0] == '-' || s[0] == '+') then (s[0] == '-', s[1..]) else (false, s)
  }

  /** The length of the run of decimal digits at the start of `s`. */
  function DigitRun(s: string): (n: nat)
    ensures n <= |s| && AllDigits(s[..n])
    ensures n < |s| ==> !IsDigit(s[n])
  {
    if s != [] && IsDigit(s[0]) then 1 + DigitRun(s[1..]) else 0
  }

  /** The value of a string of decimal digits, most significant digit first. */
  function DigitsValue(d: string): nat
    requires AllDigits(d)
  {
    if d == [] then 0 else 10 * DigitsValue(d[..|d| - 1]) + (d[|d| - 1] as int - '0' as int)
  }

  /** The value of the digits after a decimal point: `FractionValue("25") == 0.25`. */
  function FractionValue(d: string): (f: real)
    requires AllDigits(d)
    ensures 0.0 <= f < 1.0
  {
    if d == [] then 0.0 else ((d[0] as int - '0' as int) as real + FractionValue(d[1..])) / 10.0
  }

  /**
   * `parseInt(s)` (no radix, decimal text): `None` is NaN. The result is a
   * number exactly when a digit follows the white space and the optional
   * sign, and it is negative only after a '-'.
   */
  function ParseInt(s: string): (r: Option<int>)
    ensures var (negative, body) := SplitSign(TrimStart(s));
            && (r.Some? <==> body != [] && IsDigit(body[0]))
            && (r.Some? && r.value < 0 ==> negative)
  {
    var (negative, body) := SplitSign(TrimStart(s));
    var n := DigitRun(body);
    if n == 0 then None
    else
      var v: int := DigitsValue(body[..n]);
      Some(if negative then -v else v)
  }

  /**
   * `parseFloat(s)` for decimal text with an optional fraction: `None` is
   * NaN. The result is a number exactly when, after the white space and the
   * optional sign, a digit comes first or a '.' followed by a digit; it is
   * negative only after a '-'.
   */
  function ParseFloat(s: string): (r: Option<real>)
    ensures var (negative, body) := SplitSign(TrimStart(s));
            && (r.Some? <==> body != [] && (IsDigit(body[0]) || (body[0] == '.' && |body| > 1 && IsDigit(body[1]))))
            && (r.Some? && r.value < 0.0 ==> negative)
  {
    var (negative, body) := SplitSign(TrimStart(s));
    var n := DigitRun(body);
    var hasFraction := n < |body| && body[n] == '.';
    var fraction := if hasFraction then body[n + 1..] else [];
    var m := DigitRun(fraction);
    if n == 0 && m == 0 then None
    else
      var v := DigitsValue(body[..n]) as real + FractionValue(fraction[..m]);
      Some(if negative then -v else v)
  }

  function DigitChar(d: nat): (c: char)
    requires d < 10
    ensures IsDigit(c)
  {
    ('0' as int + d) as char
  }

  /** `String(n)` (also `${n}`) for a natural number. */
  function NatToString(n: nat): (s: string)
    ensures |s| >= 1 && AllDigits(s)
    ensures s[0] == '0' ==> n == 0
  {
    if n < 10 then [DigitChar(n)] else NatToString(n / 10) + [DigitChar(n % 10)]
  }

  lemma {:induction false} NatToStringValue(n: nat)
    ensures DigitsValue(NatToString(n)) == n
  {
    if n >= 10 {
      NatToStringValue(n / 10);
      var s := NatToString(n);
      assert s[..|s| - 1] == NatToString(n / 10);
    }
  }

  lemma {:induction false} DigitRunOfDigits(d: string)
    requires AllDigits(d)
    ensures DigitRun(d) == |d|
    decreases |d|
  {
    if d != [] {
      DigitRunOfDigits(d[1..]);
    }
  }

  /** Digit text has no leading white space and no sign. */
  lemma DigitsStartPlain(d: string)
    requires d != [] && AllDigits(d)
    ensures TrimStart(d) == d && SplitSign(d) == (false, d)
  {
    assert IsDigit(d[0]) && !IsSpace(d[0]);
    assert d[0] != '-' && d[0] != '+';
  }

  /** The timestamps the data generator writes are read back exactly by `parseInt`. */
  lemma ParseIntOfNatToString(n: nat)
    ensures ParseInt(NatToString(n)) == Some(n)
  {
    var s := NatToString(n);
    DigitsStartPlain(s);
    DigitRunOfDigits(s);
    NatToStringValue(n);
    assert s[..|s|] == s;
  }

  /** The altitudes the data generator writes are read back exactly by `parseFloat`. */
  lemma ParseFloatOfNatToString(n: nat)
    ensures ParseFloat(NatToString(n)) == Some(n as real)
  {
    ParseFloatOfDigits(NatToString(n));
    NatToStringValue(n);
  }

  /** `parseFloat` reads a plain string of digits as the number the digits denote. */
  lemma ParseFloatOfDigits(d: string)
    requires d != [] && AllDigits(d)
    ensures ParseFloat(d) == Some(DigitsValue(d) as real)
  {
    DigitsStartPlain(d);
    DigitRunOfDigits(d);
    assert d[..|d|] == d;
    var fraction: string := [];
    assert DigitRun(fraction) == 0 && fraction[..0] == [] && FractionValue([]) == 0.0;
  }

  // ---------------------------------------------------------------------------
  // searching and replacing

  /** `p` occurs in `s` starting at position `i`. */
  predicate OccursAt(s: string, p: string, i: nat) {
    i + |p| <= |s| && s[i..i + |p|] == p
  }

  /** The first position at or after `from` where `p` occurs in `s`. */
  function IndexFrom(s: string, p: string, from: nat): (r: Option<nat>)
    ensures r.Some? ==> from <= r.value && OccursAt(s, p, r.value)
    ensures forall j: nat :: from <= j && (r.None? || j < r.value) ==> !OccursAt(s, p, j)
    decreases |s| - from
  {
    if from + |p| > |s| then None
    else if OccursAt(s, p, from) then Some(from)
    else IndexFrom(s, p, from + 1)
  }

  /** `s.indexOf(p)`, with `None` for -1. */
  function IndexOf(s: string, p: string): (r: Option<nat>)
    ensures r.Some? ==> OccursAt(s, p, r.value)
    ensures forall j: nat :: (r.None? || j < r.value) ==> !OccursAt(s, p, j)
  {
    IndexFrom(s, p, 0)
  }

  /**
   * `s.replace(p, r)` with a string pattern: only the first occurrence is
   * replaced, so the text before it is kept and the length changes by
   * `|r| - |p|`; without an occurrence the text is unchanged.
   */
  function ReplaceFirst(s: string, p: string, r: string): (t: string)
    ensures IndexOf(s, p).None? ==> t == s
    ensures IndexOf(s, p).Some? ==> |t| == |s| - |p| + |r| && t[..IndexOf(s, p).value] == s[..IndexOf(s, p).value]
    ensures IndexOf(s, p).Some? ==>
              && t[IndexOf(s, p).value..IndexOf(s, p).value + |r|] == r
              && t[IndexOf(s, p).value + |r|..] == s[IndexOf(s, p).value + |p|..]
  {
    match IndexOf(s, p)
    case None => s
    case Some(i) => s[..i] + r + s[i + |p|..]
  }

  /** `s.replace(/p/g, r)` for a literal pattern: every occurrence, scanning left to right without overlap. */
  function ReplaceAll(s: string, p: string, r: string): string
    requires p != []
    decreases |s|
  {
    if |s| < |p| then s
    else if s[..|p|] == p then r + ReplaceAll(s[|p|..], p, r)
    else [s[0]] + ReplaceAll(s[1..], p, r)
  }

  /** A pattern whose first character does not occur in `s` changes nothing. */
  lemma {:induction false} ReplaceAllAbsent(s: string, p: string, r: string)
    requires p != [] && p[0] !in s
    ensures ReplaceAll(s, p, r) == s
    decreases |s|
  {
    if |s| >= |p| {
      assert s[..|p|][0] == s[0];
      ReplaceAllAbsent(s[1..], p, r);
      assert [s[0]] + s[1..] == s;
    }
  }

  /** A prefix without the pattern's first character passes through unchanged. */
  lemma {:induction false} ReplaceAllPrefix(a: string, t: string, p: string, r: string)
    requires p != [] && p[0] !in a
    ensures ReplaceAll(a + t, p, r) == a + ReplaceAll(t, p, r)
    decreases |a|
  {
    if a != [] && |a + t| < |p| {
      assert ReplaceAll(t, p, r) == t;
    } else if a != [] {
      assert a[0] in a;
      assert (a + t)[..|p|][0] == a[0];
      assert (a + t)[..|p|] != p;
      assert (a + t)[1..] == a[1..] + t;
      forall k | 0 <= k < |a[1..]| ensures a[1..][k] != p[0] {
        assert a[1..][k] == a[k + 1] && a[k + 1] in a;
      }
      assert ReplaceAll(a + t, p, r) == [a[0]] + ReplaceAll(a[1..] + t, p, r);
      ReplaceAllPrefix(a[1..], t, p, r);
      assert [a[0]] + (a[1..] + ReplaceAll(t, p, r)) == a + ReplaceAll(t, p, r);
    } else {
      assert a + t == t;
    }
  }

  /** A character followed by one that differs from the pattern's second is no match. */
  lemma ReplaceAllSkip(h: char, t: string, p: string, r: string)
    requires |p| >= 2 && t != [] && t[0] != p[1]
    ensures ReplaceAll([h] + t, p, r) == [h] + ReplaceAll(t, p, r)
  {
    if |[h] + t| >= |p| {
      assert ([h] + t)[..|p|][1] == t[0];
    }
    assert ([h] + t)[1..] == t;
  }

  /** The pattern alone is replaced as a whole. */
  lemma ReplaceAllWhole(p: string, r: string)
    requires p != []
    ensures ReplaceAll(p, p, r) == r
  {
    assert p[..|p|] == p;
    assert p[|p|..] == [];
  }
}
