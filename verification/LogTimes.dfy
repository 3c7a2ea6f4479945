/** Timestamps as the log table compares them, as text: where that is the order of time, and which rows a prune takes
    too early or leaves too long. All stamps are UTC, with or without a fraction of the second. */
module LogTimes {
  import opened LogStore

  /** `whole` are the digits of date and time; `frac` up to 9 digits of the second, none if it is written without. */
  datatype Stamp = Stamp(whole: seq<nat>, frac: seq<nat>) {
    /** Written in a layout, year first, whose zeros stand for the digits, as in 0000-00-00T00:00:00. */
    predicate Fits(layout: string) {
      |whole| == Zeros(layout) && |frac| <= 9 && AllDigits(whole) && AllDigits(frac)
    }
  }

  predicate AllDigits(d: seq<nat>) {
    forall i :: 0 <= i < |d| ==> d[i] < 10
  }

  function Digit(d: nat): char
    requires d < 10
  {
    ('0' as int + d) as char
  }

  function Zeros(layout: string): nat {
    if layout == "" then 0 else (if layout[0] == '0' then 1 else 0) + Zeros(layout[1..])
  }

  /** The layout with its zeros replaced by the digits, in order. */
  function Render(layout: string, d: seq<nat>): string
    requires Zeros(layout) == |d| && AllDigits(d)
  {
    if layout == "" then ""
    else if layout[0] == '0' then [Digit(d[0])] + Render(layout[1..], d[1..])
    else [layout[0]] + Render(layout[1..], d)
  }

  function Digits(d: seq<nat>): string
    requires AllDigits(d)
  {
    if d == [] then "" else [Digit(d[0])] + Digits(d[1..])
  }

  function FracText(f: seq<nat>): string
    requires AllDigits(f)
  {
    if f == [] then "Z" else "." + Digits(f) + "Z"
  }

  function Text(layout: string, s: Stamp): string
    requires s.Fits(layout)
  {
    Render(layout, s.whole) + FracText(s.frac)
  }

  // ---- The moment a stamp stands for ----

  function Pow10(n: nat): nat {
    if n == 0 then 1 else 10 * Pow10(n - 1)
  }

  function Number(d: seq<nat>): nat {
    if d == [] then 0 else d[0] * Pow10(|d| - 1) + Number(d[1..])
  }

  function Pad(f: seq<nat>, n: nat): seq<nat>
    decreases n
  {
    if n == 0 then [] else if f == [] then [0] + Pad([], n - 1) else [f[0]] + Pad(f[1..], n - 1)
  }

  /** Date, time and nanoseconds read as one number: later moments have larger ones. */
  function Moment(s: Stamp): nat {
    Number(s.whole + Pad(s.frac, 9))
  }

  // ---- Digits: as a number and place by place ----

  predicate LexLe(d: seq<nat>, e: seq<nat>)
    requires |d| == |e|
  {
    d == [] || d[0] < e[0] || (d[0] == e[0] && LexLe(d[1..], e[1..]))
  }

  lemma {:induction false} NumberIsSmall(d: seq<nat>)
    requires AllDigits(d)
    ensures Number(d) < Pow10(|d|)
  {
    if d != [] {
      NumberIsSmall(d[1..]);
      var p: int := Pow10(|d| - 1);
      assert Pow10(|d|) == 10 * p && Number(d) == d[0] * p + Number(d[1..]);
      hide Pow10, Number;
      NextMultiple(d[0], 10, p);
    }
  }

  lemma NextMultiple(x: int, y: int, p: int)
    requires x < y && p >= 0
    ensures x * p + p <= y * p
  {
    var gap := y - x - 1;
    assert y * p == x * p + p + gap * p;
    assert gap * p >= 0;
  }

  lemma {:induction false} NumberIsLexicographic(d: seq<nat>, e: seq<nat>)
    requires |d| == |e| && AllDigits(d) && AllDigits(e)
    ensures Number(d) <= Number(e) <==> LexLe(d, e)
  {
    if d != [] {
      NumberIsLexicographic(d[1..], e[1..]);
      NumberIsSmall(d[1..]);
      NumberIsSmall(e[1..]);
      hide Pow10;
      FirstDigitDecides(d[0], e[0], Pow10(|d| - 1), Number(d[1..]), Number(e[1..]));
    }
  }

  lemma FirstDigitDecides(x: nat, y: nat, p: nat, m: nat, n: nat)
    requires m < p && n < p
    ensures x * p + m <= y * p + n <==> x < y || (x == y && m <= n)
  {
    if x < y { NextMultiple(x, y, p); }
    if y < x { NextMultiple(y, x, p); }
  }

  lemma {:induction false} LexOfConcat(d: seq<nat>, e: seq<nat>, f: seq<nat>, g: seq<nat>)
    requires |d| == |e| && |f| == |g|
    ensures LexLe(d + f, e + g) <==> if d == e then LexLe(f, g) else LexLe(d, e)
  {
    if d == [] {
      assert d + f == f && e + g == g;
    } else {
      assert (d + f)[1..] == d[1..] + f && (e + g)[1..] == e[1..] + g;
      LexOfConcat(d[1..], e[1..], f, g);
      assert d == e <==> d[0] == e[0] && d[1..] == e[1..] by { assert d == [d[0]] + d[1..] && e == [e[0]] + e[1..]; }
    }
  }

  // ---- The text ----

  /** Texts of one layout compare by their digits, and by what follows when those agree. */
  lemma {:induction false} RenderedCompare(layout: string, d: seq<nat>, e: seq<nat>, x: string, y: string)
    requires Zeros(layout) == |d| == |e| && AllDigits(d) && AllDigits(e)
    ensures TextLe(Render(layout, d) + x, Render(layout, e) + y) <==> if d == e then TextLe(x, y) else LexLe(d, e)
    decreases |layout|
  {
    if layout == "" {
      assert "" + x == x && "" + y == y;
    } else if layout[0] == '0' {
      var l, m := Render(layout[1..], d[1..]), Render(layout[1..], e[1..]);
      RenderedCompare(layout[1..], d[1..], e[1..], x, y);
      HeadThenTail(Digit(d[0]), l, x, Digit(e[0]), m, y);
      assert d == e <==> d[0] == e[0] && d[1..] == e[1..] by { assert d == [d[0]] + d[1..] && e == [e[0]] + e[1..]; }
    } else {
      RenderedCompare(layout[1..], d, e, x, y);
      HeadThenTail(layout[0], Render(layout[1..], d), x, layout[0], Render(layout[1..], e), y);
    }
  }

  lemma HeadThenTail(a: char, s: string, x: string, b: char, t: string, y: string)
    ensures TextLe([a] + s + x, [b] + t + y) <==> a < b || (a == b && TextLe(s + x, t + y))
  {
    hide TextLe;
    var l, r := [a] + s + x, [b] + t + y;
    assert l == [a] + (s + x) && r == [b] + (t + y);
    assert l[1..] == s + x && r[1..] == t + y;
    TextLeByHead(l, r);
  }

  lemma TextLeByHead(l: string, r: string)
    requires l != "" && r != ""
    ensures TextLe(l, r) <==> l[0] < r[0] || (l[0] == r[0] && TextLe(l[1..], r[1..]))
  {
  }

  /** How fractions compare as text: a longer one sorts before its own beginnings, since 'Z' comes after every digit and
      after '.'. */
  predicate FracLe(f: seq<nat>, g: seq<nat>) {
    g == [] || (f != [] && (f[0] < g[0] || (f[0] == g[0] && FracLe(f[1..], g[1..]))))
  }

  lemma {:induction false} DigitsCompare(f: seq<nat>, g: seq<nat>)
    requires AllDigits(f) && AllDigits(g)
    ensures TextLe(Digits(f) + "Z", Digits(g) + "Z") <==> FracLe(f, g)
  {
    if f != [] && g != [] {
      DigitsCompare(f[1..], g[1..]);
      HeadThenTail(Digit(f[0]), Digits(f[1..]), "Z", Digit(g[0]), Digits(g[1..]), "Z");
    } else if f == [] && g == [] {
      assert TextLe("Z"[1..], "Z"[1..]);
    } else {
      assert (Digits(f) + "Z")[0] == if f == [] then 'Z' else Digit(f[0]);
      assert (Digits(g) + "Z")[0] == if g == [] then 'Z' else Digit(g[0]);
    }
  }

  lemma FracTextCompare(f: seq<nat>, g: seq<nat>)
    requires AllDigits(f) && AllDigits(g)
    ensures TextLe(FracText(f), FracText(g)) <==> FracLe(f, g)
  {
    if f != [] && g != [] {
      DigitsCompare(f, g);
      HeadThenTail('.', Digits(f), "Z", '.', Digits(g), "Z");
    } else if f == [] && g == [] {
      assert TextLe("Z"[1..], "Z"[1..]);
    } else {
      assert FracText(f)[0] == if f == [] then 'Z' else '.';
      assert FracText(g)[0] == if g == [] then 'Z' else '.';
    }
  }

  // ---- Text order against time order ----

  predicate AllZero(f: seq<nat>) {
    forall i :: 0 <= i < |f| ==> f[i] == 0
  }

  lemma {:induction false} PadShape(f: seq<nat>, n: nat)
    requires AllDigits(f)
    ensures |Pad(f, n)| == n && AllDigits(Pad(f, n))
    decreases n
  {
    if n > 0 { PadShape(if f == [] then [] else f[1..], n - 1); }
  }

  lemma {:induction false} NothingIsLeast(g: seq<nat>, n: nat)
    requires |g| <= n && AllDigits(g)
    ensures |Pad([], n)| == |Pad(g, n)| == n
    ensures LexLe(Pad([], n), Pad(g, n))
    ensures LexLe(Pad(g, n), Pad([], n)) <==> AllZero(g)
    decreases n
  {
    PadShape([], n);
    PadShape(g, n);
    if n > 0 {
      var rest := if g == [] then [] else g[1..];
      NothingIsLeast(rest, n - 1);
      assert Pad(g, n)[1..] == Pad(rest, n - 1) && Pad([], n)[1..] == Pad([], n - 1);
      assert g != [] ==> (AllZero(g) <==> g[0] == 0 && AllZero(rest)) by {
        assert forall i :: 1 <= i < |g| ==> g[i] == rest[i - 1];
      }
    }
  }

  lemma SameHead(f: seq<nat>, g: seq<nat>)
    requires f != [] && g != []
    ensures f < g <==> f[0] == g[0] && f[1..] < g[1..]
    ensures g < f ==> f[|g|..] == f[1..][|g[1..]|..]
  {
    assert f == [f[0]] + f[1..] && g == [g[0]] + g[1..];
    if f[0] == g[0] && f[1..] < g[1..] {
      assert g[1..][..|f| - 1] == f[1..];
      assert g[..|f|] == [g[0]] + g[1..][..|f| - 1];
    }
  }

  /** Fractions as text against fractions as amounts. */
  lemma {:induction false} FractionsDiffer(f: seq<nat>, g: seq<nat>, n: nat)
    requires |f| <= n && |g| <= n && AllDigits(f) && AllDigits(g)
    ensures |Pad(f, n)| == |Pad(g, n)| == n
    ensures !FracLe(f, g) && LexLe(Pad(f, n), Pad(g, n)) <==> f < g
    ensures FracLe(f, g) && !LexLe(Pad(f, n), Pad(g, n)) <==> g < f && !AllZero(f[|g|..])
    decreases n
  {
    PadShape(f, n);
    PadShape(g, n);
    if f == [] {
      NothingIsLeast(g, n);
    } else if g == [] {
      NothingIsLeast(f, n);
      assert f[0..] == f;
    } else {
      FractionsDiffer(f[1..], g[1..], n - 1);
      assert Pad(f, n)[1..] == Pad(f[1..], n - 1) && Pad(g, n)[1..] == Pad(g[1..], n - 1);
      SameHead(f, g);
      SameHead(g, f);
    }
  }

  lemma StampsCompare(layout: string, a: Stamp, b: Stamp)
    requires a.Fits(layout) && b.Fits(layout)
    ensures |Pad(a.frac, 9)| == |Pad(b.frac, 9)| == 9
    ensures TextLe(Text(layout, a), Text(layout, b)) <==>
            if a.whole == b.whole then FracLe(a.frac, b.frac) else LexLe(a.whole, b.whole)
    ensures Moment(a) <= Moment(b) <==>
            if a.whole == b.whole then LexLe(Pad(a.frac, 9), Pad(b.frac, 9)) else LexLe(a.whole, b.whole)
  {
    TextsCompare(layout, a, b);
    MomentsCompare(a, b);
  }

  lemma TextsCompare(layout: string, a: Stamp, b: Stamp)
    requires Zeros(layout) == |a.whole| == |b.whole|
    requires AllDigits(a.whole) && AllDigits(b.whole) && AllDigits(a.frac) && AllDigits(b.frac)
    ensures TextLe(Render(layout, a.whole) + FracText(a.frac), Render(layout, b.whole) + FracText(b.frac)) <==>
            if a.whole == b.whole then FracLe(a.frac, b.frac) else LexLe(a.whole, b.whole)
  {
    hide Zeros, Render, FracText, TextLe, LexLe, FracLe, AllDigits;
    RenderedCompare(layout, a.whole, b.whole, FracText(a.frac), FracText(b.frac));
    FracTextCompare(a.frac, b.frac);
  }

  lemma MomentsCompare(a: Stamp, b: Stamp)
    requires |a.whole| == |b.whole|
    requires AllDigits(a.whole) && AllDigits(b.whole) && AllDigits(a.frac) && AllDigits(b.frac)
    ensures |Pad(a.frac, 9)| == |Pad(b.frac, 9)| == 9
    ensures Moment(a) <= Moment(b) <==>
            if a.whole == b.whole then LexLe(Pad(a.frac, 9), Pad(b.frac, 9)) else LexLe(a.whole, b.whole)
  {
    hide Pad, Number, LexLe;
    PadShape(a.frac, 9);
    PadShape(b.frac, 9);
    NumberIsLexicographic(a.whole + Pad(a.frac, 9), b.whole + Pad(b.frac, 9));
    LexOfConcat(a.whole, b.whole, Pad(a.frac, 9), Pad(b.frac, 9));
  }

  /** Two stamps compare as text the way their moments do, in both directions, exactly when they are not of the same
      second with one fraction written as the beginning of the other. */
  lemma TextOrderIsTimeOrderIff(layout: string, a: Stamp, b: Stamp)
    requires a.Fits(layout) && b.Fits(layout)
    ensures (TextLe(Text(layout, a), Text(layout, b)) <==> Moment(a) <= Moment(b))
            && (TextLe(Text(layout, b), Text(layout, a)) <==> Moment(b) <= Moment(a))
            <==> !(a.whole == b.whole && (a.frac < b.frac || b.frac < a.frac))
  {
    StampsCompare(layout, a, b);
    StampsCompare(layout, b, a);
    FractionsDiffer(a.frac, b.frac, 9);
    FractionsDiffer(b.frac, a.frac, 9);
  }

  /** So stamps written with the same number of digits always compare as their moments do. */
  lemma FixedDigitsCompareAsTime(layout: string, a: Stamp, b: Stamp)
    requires a.Fits(layout) && b.Fits(layout) && |a.frac| == |b.frac|
    ensures TextLe(Text(layout, a), Text(layout, b)) <==> Moment(a) <= Moment(b)
  {
    TextOrderIsTimeOrderIff(layout, a, b);
  }

  /** A row is pruned although it is not older than the cutoff exactly when both are of one second and the cutoff's
      fraction is a proper beginning of the row's. */
  lemma PrunedTooEarlyIff(layout: string, cutoff: Stamp, ts: Stamp)
    requires cutoff.Fits(layout) && ts.Fits(layout)
    ensures !TextLe(Text(layout, cutoff), Text(layout, ts)) && Moment(cutoff) <= Moment(ts) <==>
            cutoff.whole == ts.whole && cutoff.frac < ts.frac
  {
    StampsCompare(layout, cutoff, ts);
    FractionsDiffer(cutoff.frac, ts.frac, 9);
  }

  /** A row is kept although it is older than the cutoff exactly when both are of one second and the cutoff's fraction
      goes on after the row's with more than zeros. */
  lemma KeptTooLongIff(layout: string, cutoff: Stamp, ts: Stamp)
    requires cutoff.Fits(layout) && ts.Fits(layout)
    ensures TextLe(Text(layout, cutoff), Text(layout, ts)) && Moment(ts) < Moment(cutoff) <==>
            cutoff.whole == ts.whole && ts.frac < cutoff.frac && !AllZero(cutoff.frac[|ts.frac|..])
  {
    StampsCompare(layout, cutoff, ts);
    FractionsDiffer(cutoff.frac, ts.frac, 9);
  }

  /** And what is no timestamp at all is pruned like any other text: a row stamped "0" meets neither condition for being
      kept, whatever the cutoff after the year 999. */
  lemma UnparseableIsPruned(layout: string, cutoff: Stamp)
    requires cutoff.Fits(layout) && layout != "" && layout[0] == '0' && cutoff.whole[0] > 0
    ensures !("0" == "" || TextLe(Text(layout, cutoff), "0"))
  {
    FirstDigitFirst(layout, cutoff.whole);
    hide Render, Zeros;
    TextLeByHead(Text(layout, cutoff), "0");
  }

  lemma FirstDigitFirst(layout: string, d: seq<nat>)
    requires layout != "" && layout[0] == '0' && Zeros(layout) == |d| && AllDigits(d)
    ensures d != [] && Render(layout, d) != "" && Render(layout, d)[0] == Digit(d[0])
  {
  }

  /** With as many fraction digits everywhere, a query by time selects exactly the rows of the moments in between. */
  lemma {:induction false} RangeSelectsByTime(layout: string, rows: seq<Row>, stamps: seq<Stamp>, from: Stamp,
                                              to: Stamp, limit: int, i: nat)
    requires Ascending(rows) && |stamps| == |rows| && i < |rows|
    requires from.Fits(layout) && to.Fits(layout) && |from.frac| == |to.frac|
    requires forall j :: 0 <= j < |rows| ==>
               && stamps[j].Fits(layout) && |stamps[j].frac| == |from.frac|
               && rows[j].record.ts == Text(layout, stamps[j])
    ensures var q := Query("", "", Text(layout, from), Text(layout, to), 0, "", limit);
            rows[i] in AllKept(rows, q) <==> Moment(from) <= Moment(stamps[i]) <= Moment(to)
  {
    var q := Query("", "", Text(layout, from), Text(layout, to), 0, "", limit);
    AllKeptAreTheMatches(rows, q);
    FixedDigitsCompareAsTime(layout, from, stamps[i]);
    FixedDigitsCompareAsTime(layout, stamps[i], to);
    assert q.from != "" && q.to != "";
    hide AllKept, Moment, Text, TextLe;
  }
}
