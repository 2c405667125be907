/** Search patterns: escaping a query and matching it with LIKE ... ESCAPE '\'. */
module Like {

  /** strings.ReplaceAll for a one-character pattern. */
  function ReplaceAll(s: string, c: char, w: string): string
  {
    if s == "" then "" else (if s[0] == c then w else [s[0]]) + ReplaceAll(s[1..], c, w)
  }

  /** escapeLike: three passes, the backslash first. */
  function EscapeLike(s: string): string
  {
    ReplaceAll(ReplaceAll(ReplaceAll(s, '\\', "\\\\"), '%', "\\%"), '_', "\\_")
  }

  predicate IsMeta(c: char)
  {
    c == '\\' || c == '%' || c == '_'
  }

  /** Each special character preceded by a backslash, in one pass. */
  function EscapeEach(s: string): string
  {
    if s == "" then "" else (if IsMeta(s[0]) then ['\\', s[0]] else [s[0]]) + EscapeEach(s[1..])
  }

  lemma {:induction false} ReplaceAllConcat(s: string, t: string, c: char, w: string)
    ensures ReplaceAll(s + t, c, w) == ReplaceAll(s, c, w) + ReplaceAll(t, c, w)
  {
    if s == "" {
      assert s + t == t;
    } else {
      assert (s + t)[1..] == s[1..] + t;
      ReplaceAllConcat(s[1..], t, c, w);
    }
  }

  lemma ReplaceOne(a: char, c: char, w: string)
    ensures ReplaceAll([a], c, w) == if a == c then w else [a]
  {
  }

  lemma ReplaceTwo(a: char, b: char, c: char, w: string)
    ensures ReplaceAll([a, b], c, w) == (if a == c then w else [a]) + (if b == c then w else [b])
  {
    ReplaceAllConcat([a], [b], c, w);
    assert [a] + [b] == [a, b];
    ReplaceOne(a, c, w);
    ReplaceOne(b, c, w);
  }

  lemma EscapeOne(a: char)
    ensures EscapeLike([a]) == if IsMeta(a) then ['\\', a] else [a]
  {
    ReplaceOne(a, '\\', "\\\\");
    ReplaceOne(a, '%', "\\%");
    ReplaceOne(a, '_', "\\_");
    if a == '\\' {
      ReplaceTwo('\\', '\\', '%', "\\%");
      ReplaceTwo('\\', '\\', '_', "\\_");
    } else if a == '%' {
      ReplaceTwo('\\', '%', '_', "\\_");
    }
  }

  /** The three passes together escape character by character: none undoes or repeats another's work. */
  lemma {:induction false} EscapeIsCharacterwise(s: string)
    ensures EscapeLike(s) == EscapeEach(s)
  {
    if s != "" {
      var a, rest := [s[0]], s[1..];
      assert s == a + rest;
      var a1, r1 := ReplaceAll(a, '\\', "\\\\"), ReplaceAll(rest, '\\', "\\\\");
      ReplaceAllConcat(a, rest, '\\', "\\\\");
      ReplaceAllConcat(a1, r1, '%', "\\%");
      ReplaceAllConcat(ReplaceAll(a1, '%', "\\%"), ReplaceAll(r1, '%', "\\%"), '_', "\\_");
      assert EscapeLike(s) == EscapeLike(a) + EscapeLike(rest);
      EscapeOne(s[0]);
      EscapeIsCharacterwise(rest);
    }
  }

  // ---------- matching ----------

  /** LIKE with escape character '\'. A pattern ending in a lone escape is an error in SQL and matches nothing here. */
  predicate Matches(p: string, t: string)
    decreases |p| + |t|
  {
    if p == "" then t == ""
    else if p[0] == '%' then Matches(p[1..], t) || (t != "" && Matches(p, t[1..]))
    else if t == "" then false
    else if p[0] == '_' then Matches(p[1..], t[1..])
    else if p[0] == '\\' then |p| >= 2 && p[1] == t[0] && Matches(p[2..], t[1..])
    else p[0] == t[0] && Matches(p[1..], t[1..])
  }

  predicate OccursAt(q: string, t: string, i: int)
  {
    0 <= i <= |t| - |q| && t[i..i + |q|] == q
  }

  /** An escaped query consumes exactly itself. */
  lemma {:induction false} EscapedMatchesItself(q: string, rest: string, t: string)
    ensures Matches(EscapeEach(q) + rest, t) <==> q <= t && Matches(rest, t[|q|..])
    decreases |q|
  {
    var p := EscapeEach(q) + rest;
    if q == "" {
      assert p == rest && t[0..] == t;
    } else {
      var tail := EscapeEach(q[1..]) + rest;
      var skip := if IsMeta(q[0]) then 2 else 1;
      assert p[skip..] == tail;
      assert p[0] == (if IsMeta(q[0]) then '\\' else q[0]) && (IsMeta(q[0]) ==> p[1] == q[0]);
      if t != "" {
        assert Matches(p, t) <==> q[0] == t[0] && Matches(tail, t[1..]);
        EscapedMatchesItself(q[1..], rest, t[1..]);
        assert q <= t <==> q[0] == t[0] && q[1..] <= t[1..];
        if q <= t { assert t[1..][|q| - 1..] == t[|q|..]; }
      }
    }
  }

  lemma {:induction false} PercentMatchesAll(t: string)
    ensures Matches("%", t)
    decreases |t|
  {
    assert "%"[1..] == "";
    if t != "" {
      PercentMatchesAll(t[1..]);
    }
  }

  /** A leading '%' skips some prefix. */
  lemma {:induction false} PercentSkips(p: string, t: string)
    ensures Matches("%" + p, t) <==> exists i :: 0 <= i <= |t| && Matches(p, t[i..])
    decreases |t|
  {
    assert ("%" + p)[1..] == p && t[0..] == t;
    if t != "" {
      PercentSkips(p, t[1..]);
      if i :| 0 <= i <= |t[1..]| && Matches(p, t[1..][i..]) {
        assert t[1..][i..] == t[i + 1..];
      }
      if i :| 0 <= i <= |t| && Matches(p, t[i..]) {
        if i > 0 { assert t[1..][i - 1..] == t[i..]; }
      }
    }
  }

  /** Searching with the escaped query finds exactly the texts that contain it literally. */
  lemma SearchFindsSubstrings(q: string, t: string)
    ensures Matches("%" + EscapeLike(q) + "%", t) <==> exists i :: OccursAt(q, t, i)
  {
    EscapeIsCharacterwise(q);
    var p := EscapeEach(q) + "%";
    assert "%" + EscapeLike(q) + "%" == "%" + p;
    PercentSkips(p, t);
    forall i | 0 <= i <= |t| ensures Matches(p, t[i..]) <==> OccursAt(q, t, i) {
      EscapedMatchesItself(q, "%", t[i..]);
      if q <= t[i..] {
        PercentMatchesAll(t[i..][|q|..]);
        assert t[i..][..|q|] == t[i..i + |q|];
      }
      if OccursAt(q, t, i) {
        assert t[i..][..|q|] == t[i..i + |q|];
      }
    }
  }

  // ---------- ignoring case ----------

  function Fold(fold: char -> char, s: string): string
  {
    if s == "" then "" else [fold(s[0])] + Fold(fold, s[1..])
  }

  /** Case folding leaves the three special characters alone and produces no new ones. */
  ghost predicate KeepsMeta(fold: char -> char)
  {
    forall c :: (IsMeta(c) ==> fold(c) == c) && (IsMeta(fold(c)) ==> IsMeta(c))
  }

  lemma {:induction false} FoldConcat(fold: char -> char, s: string, t: string)
    ensures Fold(fold, s + t) == Fold(fold, s) + Fold(fold, t)
  {
    if s == "" {
      assert s + t == t;
    } else {
      assert (s + t)[1..] == s[1..] + t;
      FoldConcat(fold, s[1..], t);
    }
  }

  lemma {:induction false} FoldEscape(fold: char -> char, s: string)
    requires KeepsMeta(fold)
    ensures Fold(fold, EscapeEach(s)) == EscapeEach(Fold(fold, s))
  {
    if s != "" {
      var first := if IsMeta(s[0]) then ['\\', s[0]] else [s[0]];
      FoldConcat(fold, first, EscapeEach(s[1..]));
      FoldEscape(fold, s[1..]);
      assert Fold(fold, s)[1..] == Fold(fold, s[1..]);
      if IsMeta(s[0]) {
        assert ['\\', s[0]][1..] == [s[0]] && [s[0]][1..] == "";
        assert Fold(fold, [s[0]]) == [s[0]];
        assert Fold(fold, first) == ['\\', s[0]];
      } else {
        assert Fold(fold, first) == [fold(s[0])];
      }
    }
  }

  /** ILIKE: both sides folded, then LIKE. */
  predicate MatchesIgnoringCase(fold: char -> char, p: string, t: string)
  {
    Matches(Fold(fold, p), Fold(fold, t))
  }

  /** SearchBlobs and SearchFolders find exactly the names that contain the query up to case. */
  lemma SearchFindsSubstringsIgnoringCase(fold: char -> char, q: string, t: string)
    requires KeepsMeta(fold)
    ensures MatchesIgnoringCase(fold, "%" + EscapeLike(q) + "%", t) <==>
              exists i :: OccursAt(Fold(fold, q), Fold(fold, t), i)
  {
    EscapeIsCharacterwise(q);
    EscapeIsCharacterwise(Fold(fold, q));
    FoldEscape(fold, q);
    FoldConcat(fold, "%", EscapeEach(q));
    FoldConcat(fold, "%" + EscapeEach(q), "%");
    assert IsMeta('%') && fold('%') == '%';
    assert "%"[1..] == "" && Fold(fold, "%") == ['%'] + Fold(fold, "") == "%";
    assert Fold(fold, "%" + EscapeLike(q) + "%") == "%" + EscapeLike(Fold(fold, q)) + "%";
    SearchFindsSubstrings(Fold(fold, q), Fold(fold, t));
    assert MatchesIgnoringCase(fold, "%" + EscapeLike(q) + "%", t) <==>
           Matches("%" + EscapeLike(Fold(fold, q)) + "%", Fold(fold, t));
  }
}
