/**
 * `generateId`: the slug the data generator derives from a refuge's name and
 * uses for its CSV file name and its catalogue id. The name is lower-cased,
 * the words " national wildlife refuge", " wildlife refuge" and " refuge"
 * are deleted, every character other than a-z and 0-9 becomes '_', runs of
 * '_' shrink to one, and a '_' at either end is dropped.
 */
module RefugeId {
  import opened JsText

  /** `toLowerCase` on one character; only the letters A-Z have lower-case forms here. */
  function LowerChar(c: char): char {
    if 'A' <= c <= 'Z' then (c as int - 'A' as int + 'a' as int) as char else c
  }

  function Lower(s: string): (r: string)
    ensures |r| == |s|
    ensures forall i :: 0 <= i < |s| ==> r[i] == LowerChar(s[i])
  {
    seq(|s|, i requires 0 <= i < |s| => LowerChar(s[i]))
  }

  /** The characters `[a-z0-9]` matches. */
  predicate Alphanumeric(c: char) {
    'a' <= c <= 'z' || '0' <= c <= '9'
  }

  /** The characters an id is made of. */
  predicate IdChar(c: char) {
    Alphanumeric(c) || c == '_'
  }

  /** `s.replace(/[^a-z0-9]/g, '_')`. */
  function Sanitize(s: string): (r: string)
    ensures |r| == |s|
    ensures forall i :: 0 <= i < |s| ==> r[i] == if Alphanumeric(s[i]) then s[i] else '_'
  {
    seq(|s|, i requires 0 <= i < |s| => if Alphanumeric(s[i]) then s[i] else '_')
  }

  /** `s` has two '_' in a row somewhere. */
  predicate HasDoubleUnderscore(s: string) {
    exists i :: 0 <= i < |s| - 1 && s[i] == '_' && s[i + 1] == '_'
  }

  /** `s` without any '_': the characters a collapse of '_' runs never touches. */
  function Letters(s: string): string {
    if s == [] then [] else (if s[0] == '_' then [] else [s[0]]) + Letters(s[1..])
  }

  /** `s.replace(/_+/g, '_')`: each run of '_' becomes a single '_', so no two '_' are left adjacent. */
  function Collapse(s: string): (r: string)
    ensures !HasDoubleUnderscore(r)
    ensures forall c :: c in r ==> c in s
    decreases |s|
  {
    if |s| <= 1 then s
    else if s[0] == '_' && s[1] == '_' then Collapse(s[1..])
    else
      var rest := Collapse(s[1..]);
      assert !HasDoubleUnderscore([s[0]] + rest) by {
        if rest != [] && s[0] == '_' {
          assert rest[0] == s[1];
        }
        forall i | 1 <= i < |rest|
          ensures !(([s[0]] + rest)[i] == '_' && ([s[0]] + rest)[i + 1] == '_')
        {
          assert ([s[0]] + rest)[i] == rest[i - 1] && ([s[0]] + rest)[i + 1] == rest[i];
        }
      }
      [s[0]] + rest
  }

  /**
   * Collapsing keeps every character other than '_' in order, and the text
   * is empty, or starts or ends with '_', exactly when the input is.
   */
  lemma {:induction false} CollapseKeeps(s: string)
    ensures var r := Collapse(s);
            && Letters(r) == Letters(s)
            && (r == [] <==> s == [])
            && (s != [] ==> (r[0] == '_' <==> s[0] == '_') && (r[|r| - 1] == '_' <==> s[|s| - 1] == '_'))
    decreases |s|
  {
    if |s| > 1 {
      CollapseKeeps(s[1..]);
      if !(s[0] == '_' && s[1] == '_') {
        var rest := Collapse(s[1..]);
        assert ([s[0]] + rest)[1..] == rest;
      }
    }
  }

  /** Text without a double '_' is left alone by `Collapse`. */
  lemma {:induction false} CollapseNoDouble(s: string)
    requires !HasDoubleUnderscore(s)
    ensures Collapse(s) == s
    decreases |s|
  {
    if |s| > 1 {
      assert !HasDoubleUnderscore(s[1..]) by {
        forall i | 0 <= i < |s[1..]| - 1
          ensures !(s[1..][i] == '_' && s[1..][i + 1] == '_')
        {
          assert s[1..][i] == s[i + 1] && s[1..][i + 1] == s[i + 2];
        }
      }
      CollapseNoDouble(s[1..]);
      assert [s[0]] + s[1..] == s;
    }
  }

  /** How many characters `TrimUnderscores` drops from the front of `s`. */
  function Lead(s: string): nat {
    if s != [] && s[0] == '_' then 1 else 0
  }

  /**
   * `s.replace(/^_|_$/g, '')`: at most one '_' goes from each end. The result
   * is the slice after the leading '_', if any, that runs to the end of `s`,
   * or stops one short exactly when a trailing '_' lies past the lead.
   */
  function TrimUnderscores(s: string): (r: string)
    ensures Lead(s) + |r| <= |s|
    ensures r == s[Lead(s)..Lead(s) + |r|]
    ensures Lead(s) + |r| == |s| || (Lead(s) + |r| == |s| - 1 && s[|s| - 1] == '_')
    ensures Lead(s) < |s| && s[|s| - 1] == '_' ==> Lead(s) + |r| == |s| - 1
  {
    var lead := Lead(s);
    if lead < |s| && s[|s| - 1] == '_' then s[lead..|s| - 1] else s[lead..]
  }

  /** Text with no '_' at either end is not trimmed. */
  lemma TrimNoEdges(s: string)
    requires s == [] || (s[0] != '_' && s[|s| - 1] != '_')
    ensures TrimUnderscores(s) == s
  {
    assert s[0..] == s;
  }

  /** Without a double '_' in `s`, trimming leaves no '_' at either end. */
  lemma TrimmedEnds(s: string)
    requires !HasDoubleUnderscore(s)
    ensures var r := TrimUnderscores(s);
            r != [] ==> r[0] != '_' && r[|r| - 1] != '_'
  {
    var r := TrimUnderscores(s);
    if r != [] {
      var k := Lead(s) + |r|;
      assert r[0] == s[Lead(s)] && r[|r| - 1] == s[k - 1];
      if Lead(s) == 1 {
        assert !(s[0] == '_' && s[1] == '_');
      }
      if k < |s| {
        assert !(s[k] == '_' && s[k - 1] == '_');
      }
    }
  }

  /** `generateId(name)`. */
  function GenerateId(name: string): (id: string)
    ensures IsId(id)
  {
    var deleted := ReplaceAll(ReplaceAll(ReplaceAll(Lower(name), " national wildlife refuge", []), " wildlife refuge", []), " refuge", []);
    var collapsed := Collapse(Sanitize(deleted));
    var id := TrimUnderscores(collapsed);
    IdShape(collapsed, id);
    id
  }

  /** An id: only a-z, 0-9 and '_', no '_' twice in a row, and none at either end. */
  predicate IsId(s: string) {
    && (forall i :: 0 <= i < |s| ==> IdChar(s[i]))
    && !HasDoubleUnderscore(s)
    && (s != [] ==> s[0] != '_' && s[|s| - 1] != '_')
  }

  lemma IdShape(collapsed: string, id: string)
    requires forall c :: c in collapsed ==> IdChar(c)
    requires !HasDoubleUnderscore(collapsed)
    requires id == TrimUnderscores(collapsed)
    ensures IsId(id)
  {
    var k := Lead(collapsed);
    TrimmedEnds(collapsed);
    forall i | 0 <= i < |id| ensures IdChar(id[i]) {
      assert id[i] == collapsed[k + i];
      assert collapsed[k + i] in collapsed;
    }
    forall i | 0 <= i < |id| - 1 ensures !(id[i] == '_' && id[i + 1] == '_') {
      assert id[i] == collapsed[k + i] && id[i + 1] == collapsed[k + i + 1];
    }
  }

  /** An id is its own id: `generateId(generateId(name)) == generateId(name)`. */
  lemma GenerateIdIdempotent(name: string)
    ensures GenerateId(GenerateId(name)) == GenerateId(name)
  {
    var id := GenerateId(name);
    IdIsFixed(id);
  }

  /** Every step of `generateId` leaves an id unchanged. */
  lemma IdIsFixed(id: string)
    requires IsId(id)
    ensures GenerateId(id) == id
  {
    LowerId(id);
    forall i | 0 <= i < |id| ensures id[i] != ' ' {
      assert IdChar(id[i]);
    }
    ReplaceAllAbsent(id, " national wildlife refuge", []);
    ReplaceAllAbsent(id, " wildlife refuge", []);
    ReplaceAllAbsent(id, " refuge", []);
    SanitizeId(id);
    CollapseNoDouble(id);
    assert TrimUnderscores(id) == id;
  }

  lemma LowerId(id: string)
    requires forall i :: 0 <= i < |id| ==> IdChar(id[i])
    ensures Lower(id) == id
  {
    forall i | 0 <= i < |id| ensures Lower(id)[i] == id[i] {
      assert IdChar(id[i]);
    }
  }

  lemma SanitizeId(id: string)
    requires forall i :: 0 <= i < |id| ==> IdChar(id[i])
    ensures Sanitize(id) == id
  {
    forall i | 0 <= i < |id| ensures Sanitize(id)[i] == id[i] {
      assert IdChar(id[i]);
    }
  }

  /** `Collapse` keeps a stretch without '_' as it is. */
  lemma {:induction false} CollapsePlain(a: string, t: string)
    requires '_' !in a
    ensures Collapse(a + t) == a + Collapse(t)
    decreases |a|
  {
    if a == [] {
      assert a + t == t;
    } else {
      assert a[0] in a;
      forall k | 0 <= k < |a[1..]| ensures a[1..][k] != '_' {
        assert a[1..][k] == a[k + 1] && a[k + 1] in a;
      }
      var s := a + t;
      assert s[0] == a[0] && s[1..] == a[1..] + t;
      CollapsePlain(a[1..], t);
      if |s| <= 1 {
        assert t == [] && a == [a[0]];
      } else {
        assert Collapse(s) == [a[0]] + Collapse(s[1..]);
      }
      assert [a[0]] + (a[1..] + Collapse(t)) == a + Collapse(t);
    }
  }

  /** A '_' followed by another one is dropped. */
  lemma CollapseRun(t: string)
    requires t != [] && t[0] == '_'
    ensures Collapse("_" + t) == Collapse(t)
  {
    assert ("_" + t)[1..] == t;
  }

  /** A '_' that ends its run is kept. */
  lemma CollapseLone(t: string)
    requires t == [] || t[0] != '_'
    ensures Collapse("_" + t) == "_" + Collapse(t)
  {
    assert ("_" + t)[1..] == t;
  }

  /** "j.n. “ding” darling" with `tail` after it, in the chunks the proofs below take apart. */
  function Ding(tail: string): string {
    "j.n." + (" " + ("“ding”" + (" " + ("darling" + tail))))
  }

  /** Deleting a word that starts with a space and is not " “..." or " d..." stops only at `tail`. */
  lemma DingKept(p: string, tail: string)
    requires |p| >= 2 && p[0] == ' ' && p[1] != '“' && p[1] != 'd'
    ensures ReplaceAll(Ding(tail), p, []) == Ding(ReplaceAll(tail, p, []))
  {
    ReplaceAllPrefix("darling", tail, p, []);
    ReplaceAllSkip(' ', "darling" + tail, p, []);
    ReplaceAllPrefix("“ding”", " " + ("darling" + tail), p, []);
    ReplaceAllSkip(' ', "“ding”" + (" " + ("darling" + tail)), p, []);
    ReplaceAllPrefix("j.n.", " " + ("“ding”" + (" " + ("darling" + tail))), p, []);
  }

  lemma LowerConcat(a: string, b: string)
    ensures Lower(a + b) == Lower(a) + Lower(b)
  {
    assert forall i :: 0 <= i < |a + b| ==> Lower(a + b)[i] == (Lower(a) + Lower(b))[i];
  }

  lemma LowerDing()
    ensures Lower("J.N. “Ding” Darling") == Ding([])
  {
    var a := "J.N. “Ding” Darling";
    forall i | 0 <= i < |a| ensures Lower(a)[i] == Ding([])[i] {}
  }

  lemma LowerRefuge()
    ensures Lower(" National Wildlife Refuge") == " national wildlife refuge"
  {
    var b := " National Wildlife Refuge";
    forall i | 0 <= i < |b| ensures Lower(b)[i] == " national wildlife refuge"[i] {}
  }

  lemma SanitizeConcat(a: string, b: string)
    ensures Sanitize(a + b) == Sanitize(a) + Sanitize(b)
  {
    assert forall i :: 0 <= i < |a + b| ==> Sanitize(a + b)[i] == (Sanitize(a) + Sanitize(b))[i];
  }

  lemma SanitizeWords()
    ensures Sanitize("j.n.") == "j_n_" && Sanitize("“ding”") == "_ding_"
    ensures Sanitize("darling") == "darling" && Sanitize(" ") == "_"
  {
    var initials, quoted, surname := "j.n.", "“ding”", "darling";
    forall i | 0 <= i < |initials| ensures Sanitize(initials)[i] == "j_n_"[i] {}
    forall i | 0 <= i < |quoted| ensures Sanitize(quoted)[i] == "_ding_"[i] {}
    forall i | 0 <= i < |surname| ensures Sanitize(surname)[i] == surname[i] {}
  }

  lemma SanitizeDing()
    ensures Sanitize(Ding([])) == "j" + ("_" + ("n" + ("_" + ("_" + ("_" + ("ding" + ("_" + ("_" + "darling"))))))))
  {
    var initials, quoted, surname := "j.n.", "“ding”", "darling";
    SanitizeWords();
    assert surname + [] == surname;
    SanitizeConcat(" ", surname);
    SanitizeConcat(quoted, " " + surname);
    SanitizeConcat(" ", quoted + (" " + surname));
    SanitizeConcat(initials, " " + (quoted + (" " + surname)));
    var s := "j" + ("_" + ("n" + ("_" + ("_" + ("_" + ("ding" + ("_" + ("_" + "darling"))))))));
    var t := "j_n_" + ("_" + ("_ding_" + ("_" + surname)));
    assert s == t by {
      forall i | 0 <= i < |s| ensures s[i] == t[i] {}
    }
  }

  /** Four words without '_' joined by runs of one, three and two '_' collapse to single separators. */
  lemma CollapseWords(a: string, b: string, c: string, d: string)
    requires '_' !in a && '_' !in b && '_' !in c && '_' !in d
    requires b != [] && c != [] && d != []
    ensures Collapse(a + ("_" + (b + ("_" + ("_" + ("_" + (c + ("_" + ("_" + d))))))))) == a + ("_" + (b + ("_" + (c + ("_" + d)))))
  {
    assert b[0] in b && c[0] in c && d[0] in d;
    CollapsePlain(d, []);
    assert d + [] == d;
    assert Collapse([]) == [];
    CollapseLone(d);
    CollapseRun("_" + d);
    CollapsePlain(c, "_" + ("_" + d));
    CollapseLone(c + ("_" + ("_" + d)));
    CollapseRun("_" + (c + ("_" + ("_" + d))));
    CollapseRun("_" + ("_" + (c + ("_" + ("_" + d)))));
    CollapsePlain(b, "_" + ("_" + ("_" + (c + ("_" + ("_" + d))))));
    CollapseLone(b + ("_" + ("_" + ("_" + (c + ("_" + ("_" + d)))))));
    CollapsePlain(a, "_" + (b + ("_" + ("_" + ("_" + (c + ("_" + ("_" + d))))))));
  }

  lemma LowerName()
    ensures Lower("J.N. “Ding” Darling" + " National Wildlife Refuge") == Ding(" national wildlife refuge")
  {
    LowerConcat("J.N. “Ding” Darling", " National Wildlife Refuge");
    LowerDing();
    LowerRefuge();
  }

  lemma DeleteWords()
    ensures ReplaceAll(ReplaceAll(ReplaceAll(Ding(" national wildlife refuge"), " national wildlife refuge", []), " wildlife refuge", []), " refuge", []) == Ding([])
  {
    DingKept(" national wildlife refuge", " national wildlife refuge");
    ReplaceAllWhole(" national wildlife refuge", []);
    DingKept(" wildlife refuge", []);
    DingKept(" refuge", []);
  }

  /** `generateId` step by step. */
  lemma GenerateIdSteps(name: string, deleted: string, sanitized: string, id: string)
    requires ReplaceAll(ReplaceAll(ReplaceAll(Lower(name), " national wildlife refuge", []), " wildlife refuge", []), " refuge", []) == deleted
    requires Sanitize(deleted) == sanitized
    requires Collapse(sanitized) == id
    requires TrimUnderscores(id) == id
    ensures GenerateId(name) == id
  {
  }

  lemma DeletedDing(name: string)
    requires name == "J.N. “Ding” Darling" + " National Wildlife Refuge"
    ensures ReplaceAll(ReplaceAll(ReplaceAll(Lower(name), " national wildlife refuge", []), " wildlife refuge", []), " refuge", []) == Ding([])
  {
    LowerName();
    DeleteWords();
  }

  lemma CollapsedDing()
    ensures Collapse("j" + ("_" + ("n" + ("_" + ("_" + ("_" + ("ding" + ("_" + ("_" + "darling"))))))))) == "j_n_ding_darling"
  {
    CollapseWords("j", "n", "ding", "darling");
    DingWords();
  }

  /** The generator's id for J.N. "Ding" Darling is the `j_n_ding_darling` the player's file table names. */
  lemma DingDarling(name: string)
    requires name == "J.N. “Ding” Darling" + " National Wildlife Refuge"
    ensures GenerateId(name) == "j_n_ding_darling"
  {
    DeletedDing(name);
    SanitizeDing();
    CollapsedDing();
    TrimNoEdges("j_n_ding_darling");
    GenerateIdSteps(name, Ding([]), "j" + ("_" + ("n" + ("_" + ("_" + ("_" + ("ding" + ("_" + ("_" + "darling")))))))), "j_n_ding_darling");
  }

  lemma DingWords()
    ensures "j" + ("_" + ("n" + ("_" + ("ding" + ("_" + "darling"))))) == "j_n_ding_darling"
  {
    var id := "j" + ("_" + ("n" + ("_" + ("ding" + ("_" + "darling")))));
    forall i | 0 <= i < |id| ensures id[i] == "j_n_ding_darling"[i] {}
  }
}
