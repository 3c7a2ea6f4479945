/** The log search: from what a user types to a SQL LIKE pattern, and what that pattern then matches.
    A string is a sequence of runes. */
module LikePattern {

  /** LOWER folds ASCII letters only. */
  function Fold(c: char): char {
    if 'A' <= c <= 'Z' then (c as int + 32) as char else c
  }

  function Lower(s: string): (t: string)
    ensures |t| == |s| && forall i :: 0 <= i < |s| ==> t[i] == Fold(s[i])
  {
    seq(|s|, i requires 0 <= i < |s| => Fold(s[i]))
  }

  /** What one rune of the query contributes. */
  function Piece(c: char): string {
    if c == '\\' || c == '%' || c == '_' then ['\\', c] else if c == '*' then "%" else [c]
  }

  function Body(q: string): string {
    if q == "" then "" else Piece(q[0]) + Body(q[1..])
  }

  function Pattern(q: string): string {
    if '*' in q then Body(q) else "%" + Body(q) + "%"
  }

  method BuildPattern(q: string) returns (p: string)
    ensures p == Pattern(q)
  {
    var b := "";
    var hasStar := '*' in q;
    for i := 0 to |q|
      invariant b + Body(q[i..]) == Body(q)
    {
      assert q[i..][0] == q[i] && q[i..][1..] == q[i + 1..];
      assert b + (Piece(q[i]) + Body(q[i + 1..])) == (b + Piece(q[i])) + Body(q[i + 1..]);
      if q[i] == '\\' || q[i] == '%' || q[i] == '_' {
        b := b + ['\\', q[i]];
      } else if q[i] == '*' {
        b := b + "%";
      } else {
        b := b + [q[i]];
      }
    }
    assert b + "" == b;
    p := if hasStar then b else "%" + b + "%";
  }

  // ---- LIKE ----

  predicate SameLetter(a: char, b: char) {
    Fold(a) == Fold(b)
  }

  /** text LIKE pattern ESCAPE '\' as SQLite evaluates it: letters compare without ASCII case, and an escape at the
      very end matches nothing. */
  predicate Like(p: string, m: string)
    decreases |p| + |m|
  {
    if p == "" then m == ""
    else if p[0] == '%' then Like(p[1..], m) || (m != "" && Like(p, m[1..]))
    else if p[0] == '\\' then |p| >= 2 && m != "" && SameLetter(p[1], m[0]) && Like(p[2..], m[1..])
    else if p[0] == '_' then m != "" && Like(p[1..], m[1..])
    else m != "" && SameLetter(p[0], m[0]) && Like(p[1..], m[1..])
  }

  /** The WHERE clause of the query. */
  predicate Found(q: string, message: string) {
    Like(Lower(Pattern(q)), Lower(message))
  }

  // ---- What the user means ----

  function Stars(q: string): nat {
    if q == "" then 0 else (if q[0] == '*' then 1 else 0) + Stars(q[1..])
  }

  /** The query with its stars replaced, in order, by the given runs of text. */
  function Filled(q: string, runs: seq<string>): string
    requires |runs| == Stars(q)
  {
    if q == "" then ""
    else if q[0] == '*' then runs[0] + Filled(q[1..], runs[1..])
    else [q[0]] + Filled(q[1..], runs)
  }

  ghost predicate Matches(q: string, m: string) {
    exists runs: seq<string> :: |runs| == Stars(q) && Filled(q, runs) == m
  }

  ghost predicate Contains(m: string, q: string) {
    exists before: string, after: string :: m == before + q + after
  }

  // ---- The translation ----

  lemma {:induction false} PercentSkipsAnyRun(p: string, m: string)
    ensures Like("%" + p, m) <==> exists k :: 0 <= k <= |m| && Like(p, m[k..])
    decreases |m|
  {
    var pp := "%" + p;
    assert pp[0] == '%' && pp[1..] == p;
    assert m[0..] == m;
    if m != "" {
      var t := m[1..];
      PercentSkipsAnyRun(p, t);
      if k :| 0 <= k <= |t| && Like(p, t[k..]) {
        assert t[k..] == m[k + 1..];
      }
      if k :| 1 <= k <= |m| && Like(p, m[k..]) {
        assert t[k - 1..] == m[k..];
      }
    }
  }

  lemma PieceMatchesItself(c: char, p: string, m: string)
    requires c != '*' && Fold(c) == c && IsLower(m)
    ensures Like(Piece(c) + p, m) <==> m != "" && m[0] == c && Like(p, m[1..])
  {
    var pp := Piece(c) + p;
    if c == '\\' || c == '%' || c == '_' {
      assert pp[0] == '\\' && pp[1] == c && pp[2..] == p;
    } else {
      assert pp[0] == c && pp[1..] == p;
    }
  }

  /** Text that LOWER leaves alone. */
  ghost predicate IsLower(s: string) {
    forall i :: 0 <= i < |s| ==> Fold(s[i]) == s[i]
  }

  lemma {:induction false} BodyMeansFilled(q: string, m: string)
    requires IsLower(q) && IsLower(m)
    ensures Like(Body(q), m) <==> Matches(q, m)
    decreases |q|
  {
    if q == "" {
      assert Filled(q, []) == "";
    } else {
      if q[0] == '*' {
        StarMeansAnyRun(q, m);
      } else {
        PieceMatchesItself(q[0], Body(q[1..]), m);
        if m != "" { BodyMeansFilled(q[1..], m[1..]); }
        RuneThenRest(q, m);
      }
    }
  }

  lemma StarMeansAnyRun(q: string, m: string)
    requires q != "" && q[0] == '*' && IsLower(q[1..]) && IsLower(m)
    ensures Like(Body(q), m) <==> Matches(q, m)
    decreases |q|, 0
  {
    var rest := q[1..];
    PercentSkipsAnyRun(Body(rest), m);
    assert Body(q) == "%" + Body(rest);
    hide Like, Body, Matches;
    if k :| 0 <= k <= |m| && Like(Body(rest), m[k..]) {
      assert IsLower(m[k..]);
      BodyMeansFilled(rest, m[k..]);
      RunThenRest(q, m, k);
    }
    if Matches(q, m) {
      var k := RunBeforeRest(q, m);
      assert IsLower(m[k..]);
      BodyMeansFilled(rest, m[k..]);
    }
  }

  lemma RunThenRest(q: string, m: string, k: nat)
    requires q != "" && q[0] == '*' && k <= |m| && Matches(q[1..], m[k..])
    ensures Matches(q, m)
  {
    var runs: seq<string> :| |runs| == Stars(q[1..]) && Filled(q[1..], runs) == m[k..];
    var all := [m[..k]] + runs;
    assert all[1..] == runs;
    assert Filled(q, all) == m[..k] + m[k..] == m;
  }

  lemma RunBeforeRest(q: string, m: string) returns (k: nat)
    requires q != "" && q[0] == '*' && Matches(q, m)
    ensures k <= |m| && Matches(q[1..], m[k..])
  {
    var runs: seq<string> :| |runs| == Stars(q) && Filled(q, runs) == m;
    k := |runs[0]|;
    assert m[k..] == Filled(q[1..], runs[1..]);
  }

  lemma RuneThenRest(q: string, m: string)
    requires q != "" && q[0] != '*'
    ensures Matches(q, m) <==> m != "" && m[0] == q[0] && Matches(q[1..], m[1..])
  {
    if Matches(q, m) {
      var runs: seq<string> :| |runs| == Stars(q) && Filled(q, runs) == m;
      assert Filled(q[1..], runs) == m[1..];
    }
    if m != "" && m[0] == q[0] && Matches(q[1..], m[1..]) {
      var runs: seq<string> :| |runs| == Stars(q[1..]) && Filled(q[1..], runs) == m[1..];
      assert Filled(q, runs) == [m[0]] + m[1..] == m;
    }
  }

  lemma {:induction false} BodyOfConcat(q: string, r: string)
    ensures Body(q + r) == Body(q) + Body(r)
  {
    if q == "" {
      assert q + r == r;
    } else {
      assert (q + r)[0] == q[0] && (q + r)[1..] == q[1..] + r;
      BodyOfConcat(q[1..], r);
    }
  }

  lemma {:induction false} StarlessPrefix(q: string, m: string)
    requires '*' !in q
    ensures Matches(q + "*", m) <==> q <= m
  {
    if q == "" {
      assert q + "*" == "*";
      assert Stars("*") == 1;
      assert Filled("*", [m]) == m + Filled("", []) == m;
    } else {
      assert (q + "*")[0] == q[0] && (q + "*")[1..] == q[1..] + "*";
      RuneThenRest(q + "*", m);
      if m != "" {
        StarlessPrefix(q[1..], m[1..]);
        assert m == [m[0]] + m[1..] && q == [q[0]] + q[1..];
      }
    }
  }

  lemma AnyRunAround(q: string)
    ensures "%" + Body(q) + "%" == "%" + Body(q + "*")
  {
    BodyOfConcat(q, "*");
    assert Body("*") == "%" + Body("") == "%";
  }

  lemma FoundAt(q: string, m: string, k: nat)
    requires k <= |m| && q <= m[k..]
    ensures Contains(m, q)
  {
    assert m == m[..k] + q + m[k + |q|..];
  }

  lemma PlaceOf(q: string, m: string) returns (k: nat)
    requires Contains(m, q)
    ensures k <= |m| && q <= m[k..]
  {
    var before: string, after: string :| m == before + q + after;
    k := |before|;
    assert m[k..] == q + after;
  }

  lemma StarlessTail(q: string, m: string, k: nat)
    requires '*' !in q && IsLower(q) && IsLower(m) && k <= |m|
    ensures Like(Body(q + "*"), m[k..]) <==> q <= m[k..]
  {
    BodyMeansFilled(q + "*", m[k..]);
    StarlessPrefix(q, m[k..]);
  }

  lemma AnywhereMeansContains(q: string, m: string)
    requires '*' !in q && IsLower(q) && IsLower(m)
    ensures Like("%" + Body(q) + "%", m) <==> Contains(m, q)
  {
    var padded := Body(q + "*");
    AnyRunAround(q);
    PercentSkipsAnyRun(padded, m);
    assert Like("%" + padded, m) == Like("%" + Body(q) + "%", m);
    hide Like, Body, Contains;
    if k :| 0 <= k <= |m| && Like(padded, m[k..]) {
      StarlessTail(q, m, k);
      FoundAt(q, m, k);
    }
    if Contains(m, q) {
      var k := PlaceOf(q, m);
      StarlessTail(q, m, k);
    }
  }

  lemma LowerOfConcat(s: string, t: string)
    ensures Lower(s + t) == Lower(s) + Lower(t)
  {}

  lemma LowerOfPiece(c: char)
    ensures Lower(Piece(c)) == Piece(Fold(c))
    ensures Fold(c) == '*' <==> c == '*'
  {}

  lemma {:induction false} LowerOfBody(q: string)
    ensures Lower(Body(q)) == Body(Lower(q))
  {
    if q != "" {
      LowerOfBody(q[1..]);
      LowerOfPiece(q[0]);
      LowerOfConcat(Piece(q[0]), Body(q[1..]));
      assert Lower(q)[0] == Fold(q[0]) && Lower(q)[1..] == Lower(q[1..]);
      hide Lower, Piece;
    }
  }

  /** Lowercasing the pattern is translating the lowercased query. */
  lemma LowerCommutes(q: string)
    ensures Lower(Pattern(q)) == Pattern(Lower(q)) && ('*' in Lower(q) <==> '*' in q)
  {
    LowerOfBody(q);
    assert forall c :: Fold(c) == '*' <==> c == '*';
    if '*' in q {
      var i :| 0 <= i < |q| && q[i] == '*';
      assert Lower(q)[i] == '*';
    }
    assert Lower("%" + Body(q) + "%") == "%" + Lower(Body(q)) + "%";
  }

  lemma LowerIsLower(s: string)
    ensures IsLower(Lower(s))
  {}

  /** For every query and message: with a star, the search finds the message exactly when the message is the query with
      its stars replaced by runs of text and everything else taken literally; without one, exactly when it contains the
      query. Both up to ASCII case. */
  lemma SearchMeansWhatItSays(q: string, message: string)
    ensures '*' in q ==> (Found(q, message) <==> Matches(Lower(q), Lower(message)))
    ensures '*' !in q ==> (Found(q, message) <==> Contains(Lower(message), Lower(q)))
  {
    LowerCommutes(q);
    LowerIsLower(q);
    LowerIsLower(message);
    if '*' in q {
      BodyMeansFilled(Lower(q), Lower(message));
    } else {
      AnywhereMeansContains(Lower(q), Lower(message));
    }
  }

  /** No pattern ends in an escape that escapes nothing, and only '\', '%' and '_' are ever escaped. */
  predicate WellEscaped(p: string) {
    if p == "" then true
    else if p[0] == '\\' then |p| >= 2 && p[1] in {'\\', '%', '_'} && WellEscaped(p[2..])
    else WellEscaped(p[1..])
  }

  lemma {:induction false} BodyIsWellEscaped(q: string, tail: string)
    requires WellEscaped(tail)
    ensures WellEscaped(Body(q) + tail)
  {
    if q == "" {
      assert Body(q) + tail == tail;
    } else {
      BodyIsWellEscaped(q[1..], tail);
      assert Body(q) + tail == Piece(q[0]) + (Body(q[1..]) + tail);
      hide Body;
      PieceIsWellEscaped(q[0], Body(q[1..]) + tail);
    }
  }

  lemma PieceIsWellEscaped(c: char, rest: string)
    requires WellEscaped(rest)
    ensures WellEscaped(Piece(c) + rest)
  {
    var p := Piece(c) + rest;
    if c == '\\' || c == '%' || c == '_' {
      assert p[0] == '\\' && p[1] == c && p[2..] == rest;
    } else {
      assert p[0] != '\\' && p[1..] == rest;
    }
  }

  lemma PatternIsWellEscaped(q: string)
    ensures WellEscaped(Pattern(q)) && WellEscaped(Lower(Pattern(q)))
  {
    LowerCommutes(q);
    WellEscapedOf(q);
    WellEscapedOf(Lower(q));
  }

  lemma WellEscapedOf(q: string)
    ensures WellEscaped(Pattern(q))
  {
    assert WellEscaped("%");
    BodyIsWellEscaped(q, "");
    BodyIsWellEscaped(q, "%");
    assert Body(q) + "" == Body(q);
    var whole := "%" + (Body(q) + "%");
    assert whole[0] == '%' && whole[1..] == Body(q) + "%";
    assert whole == "%" + Body(q) + "%";
  }
}
