/** The live log table: merging fetched rows, moving the cursor, and what the table then shows in every interleaving of
    inserts, requests, answers and losses. */
module LiveTail {
  import opened LogStore

  // ---- nextAfter and mergeRows ----

  function MaxId(rows: seq<Row>, current: nat): nat {
    if rows == [] then current else MaxId(rows[1..], if rows[0].id > current then rows[0].id else current)
  }

  method NextAfter(rows: seq<Row>, current: nat) returns (max: nat)
    ensures max == MaxId(rows, current)
    ensures max >= current && (max == current || exists r :: r in rows && r.id == max)
    ensures forall r :: r in rows ==> r.id <= max
  {
    max := current;
    assert rows[0..] == rows;
    for i := 0 to |rows|
      invariant MaxId(rows[i..], max) == MaxId(rows, current)
      invariant max >= current && (max == current || exists r :: r in rows && r.id == max)
      invariant forall j :: 0 <= j < i ==> rows[j].id <= max
    {
      assert rows[i..][1..] == rows[i + 1..];
      if rows[i].id > max { max := rows[i].id; }
    }
  }

  lemma MaxOfDescending(rows: seq<Row>, current: nat)
    requires Descending(rows)
    ensures MaxId(rows, current) == if rows != [] && rows[0].id > current then rows[0].id else current
  {
    if rows != [] { MaxIsCurrent(rows[1..], if rows[0].id > current then rows[0].id else current); }
  }

  lemma {:induction false} MaxIsCurrent(rows: seq<Row>, current: nat)
    requires forall r :: r in rows ==> r.id <= current
    ensures MaxId(rows, current) == current
  {
    if rows != [] {
      assert rows[0] in rows;
      MaxIsCurrent(rows[1..], current);
    }
  }

  /** The first row of each id, in order. */
  function Deduped(rows: seq<Row>, seen: set<nat>): seq<Row> {
    if rows == [] then []
    else if rows[0].id in seen then Deduped(rows[1..], seen)
    else [rows[0]] + Deduped(rows[1..], seen + {rows[0].id})
  }

  function Inserted(r: Row, rows: seq<Row>): seq<Row> {
    if rows == [] || r.id > rows[0].id then [r] + rows else [rows[0]] + Inserted(r, rows[1..])
  }

  function Sorted(rows: seq<Row>): seq<Row> {
    if rows == [] then [] else Inserted(rows[0], Sorted(rows[1..]))
  }

  function Merged(existing: seq<Row>, incoming: seq<Row>, cap: nat): seq<Row> {
    if incoming == [] then Upto(existing, cap) else Upto(Sorted(Deduped(incoming + existing, {})), cap)
  }

  method MergeRows(existing: seq<Row>, incoming: seq<Row>, cap: nat) returns (out: seq<Row>)
    ensures out == Merged(existing, incoming, cap)
  {
    if |incoming| == 0 { return Upto(existing, cap); }
    var seen: set<nat> := {};
    var merged: seq<Row> := [];
    var all := incoming + existing;
    assert all[0..] == all;
    for i := 0 to |all|
      invariant merged + Deduped(all[i..], seen) == Deduped(all, {})
    {
      DedupedStep(merged, all, i, seen);
      hide Deduped;
      if all[i].id !in seen {
        seen := seen + {all[i].id};
        merged := merged + [all[i]];
      }
    }
    assert merged == Deduped(all, {});
    out := Upto(Sorted(merged), cap);
  }

  lemma DedupedStep(merged: seq<Row>, all: seq<Row>, i: nat, seen: set<nat>)
    requires i < |all|
    ensures merged + Deduped(all[i..], seen) ==
            if all[i].id in seen then merged + Deduped(all[i + 1..], seen)
            else (merged + [all[i]]) + Deduped(all[i + 1..], seen + {all[i].id})
  {
    assert all[i..][0] == all[i] && all[i..][1..] == all[i + 1..];
  }

  ghost predicate DistinctIds(rows: seq<Row>) {
    forall i, j :: 0 <= i < j < |rows| ==> rows[i].id != rows[j].id
  }

  /** Rows that agree wherever their ids do, as rows of one table do. */
  ghost predicate OneRowPerId(rows: seq<Row>) {
    forall r, s :: r in rows && s in rows && r.id == s.id ==> r == s
  }

  lemma {:induction false} DedupedKeepsOne(rows: seq<Row>, seen: set<nat>)
    requires OneRowPerId(rows)
    ensures DistinctIds(Deduped(rows, seen))
    ensures forall r :: r in Deduped(rows, seen) <==> r in rows && r.id !in seen
  {
    if rows != [] {
      var r, rest := rows[0], rows[1..];
      assert rows == [r] + rest && OneRowPerId(rest);
      if r.id in seen {
        DedupedKeepsOne(rest, seen);
      } else {
        DedupedKeepsOne(rest, seen + {r.id});
        var tail := Deduped(rest, seen + {r.id});
        assert Deduped(rows, seen) == [r] + tail;
        hide Deduped;
        DistinctWithHead(r, tail);
      }
    }
  }

  lemma DistinctWithHead(r: Row, tail: seq<Row>)
    requires DistinctIds(tail) && forall s :: s in tail ==> s.id != r.id
    ensures DistinctIds([r] + tail)
  {
    assert forall i :: 0 <= i < |tail| ==> tail[i] in tail;
  }

  lemma {:induction false} InsertedKeepsOrder(r: Row, rows: seq<Row>)
    requires Descending(rows) && forall s :: s in rows ==> s.id != r.id
    ensures Descending(Inserted(r, rows))
    ensures forall s :: s in Inserted(r, rows) <==> s == r || s in rows
  {
    if rows == [] || r.id > rows[0].id {
      assert forall i :: 0 <= i < |rows| ==> rows[i].id < r.id;
      NewestFirst(r, rows);
    } else {
      var head, rest := rows[0], rows[1..];
      assert rows == [head] + rest && head in rows;
      assert forall i :: 0 <= i < |rest| ==> rest[i] == rows[i + 1];
      InsertedKeepsOrder(r, rest);
      assert Inserted(r, rows) == [head] + Inserted(r, rest);
      hide Inserted;
      NewestFirst(head, Inserted(r, rest));
    }
  }

  lemma {:induction false} SortedIsDescending(rows: seq<Row>)
    requires DistinctIds(rows)
    ensures Descending(Sorted(rows))
    ensures forall r :: r in Sorted(rows) <==> r in rows
  {
    if rows != [] {
      var rest := rows[1..];
      assert forall s :: s in rows <==> s == rows[0] || s in rest;
      SortedIsDescending(rest);
      forall s | s in Sorted(rest)
        ensures s.id != rows[0].id
      {
        var i :| 0 <= i < |rest| && rest[i] == s;
        assert rows[i + 1] == s;
      }
      InsertedKeepsOrder(rows[0], Sorted(rest));
    }
  }

  /** `u` lists rows of `w`, among them the top `cap` of `w`. */
  ghost predicate HoldsTop(u: seq<Row>, w: seq<Row>, cap: nat) {
    (forall r :: r in u ==> r in w) && forall i :: 0 <= i < |w| && i < cap ==> w[i] in u
  }

  lemma HeadsAgree(u: seq<Row>, w: seq<Row>, cap: nat)
    requires Descending(u) && Descending(w) && HoldsTop(u, w, cap) && cap > 0 && w != []
    ensures u != [] && u[0] == w[0] && HoldsTop(u[1..], w[1..], cap - 1)
  {
    assert w[0] in u;
    assert u[0] in w;
    assert u[0] == w[0];
    assert u == [u[0]] + u[1..] && w == [w[0]] + w[1..];
    forall r | r in u[1..]
      ensures r in w[1..]
    {
      assert r in u && r.id < u[0].id;
    }
    forall i | 0 <= i < |w[1..]| && i < cap - 1
      ensures w[1..][i] in u[1..]
    {
      assert w[i + 1] in u && w[i + 1].id < u[0].id;
    }
  }

  /** A descending listing is settled by its elements, and so is its top. */
  lemma {:induction false} SameTop(u: seq<Row>, w: seq<Row>, cap: nat)
    requires Descending(u) && Descending(w) && HoldsTop(u, w, cap)
    ensures Upto(u, cap) == Upto(w, cap)
  {
    if w == [] {
      if u != [] {
        HeadIsIn(u);
        assert false;
      }
    } else if cap > 0 {
      HeadsAgree(u, w, cap);
      SameTop(u[1..], w[1..], cap - 1);
      UptoOfCons(u, cap);
      UptoOfCons(w, cap);
    }
  }

  lemma HeadIsIn(s: seq<Row>)
    requires s != []
    ensures s[0] in s
  {}

  lemma UptoOfCons(s: seq<Row>, n: nat)
    requires s != [] && n > 0
    ensures Upto(s, n) == [s[0]] + Upto(s[1..], n - 1)
  {}

  /** Merging lists every row of either side once, newest first, cut at the cap. */
  lemma MergedIsTopOfUnion(existing: seq<Row>, incoming: seq<Row>, cap: nat, w: seq<Row>)
    requires Descending(existing) && Descending(w) && OneRowPerId(incoming + existing)
    requires forall r :: r in existing || r in incoming ==> r in w
    requires forall i :: 0 <= i < |w| && i < cap ==> w[i] in existing || w[i] in incoming
    ensures Merged(existing, incoming, cap) == Upto(w, cap)
  {
    if incoming == [] {
      SameTop(existing, w, cap);
    } else {
      var all := incoming + existing;
      assert forall r :: r in all <==> r in incoming || r in existing;
      DedupedKeepsOne(all, {});
      SortedIsDescending(Deduped(all, {}));
      SameTop(Sorted(Deduped(all, {})), w, cap);
    }
  }

  /** The row is the first of its id. */
  ghost predicate FirstOfId(rows: seq<Row>, r: Row) {
    exists i :: 0 <= i < |rows| && rows[i] == r && forall j :: 0 <= j < i ==> rows[j].id != r.id
  }

  lemma FirstOfCons(rows: seq<Row>, r: Row)
    requires rows != []
    ensures FirstOfId(rows, r) <==> r == rows[0] || (r.id != rows[0].id && FirstOfId(rows[1..], r))
  {
    var rest := rows[1..];
    if FirstOfId(rows, r) && r != rows[0] {
      var i :| 0 <= i < |rows| && rows[i] == r && forall j :: 0 <= j < i ==> rows[j].id != r.id;
      assert rest[i - 1] == r && forall j :: 0 <= j < i - 1 ==> rest[j] == rows[j + 1];
    }
    if FirstOfId(rest, r) && r.id != rows[0].id {
      var i :| 0 <= i < |rest| && rest[i] == r && forall j :: 0 <= j < i ==> rest[j].id != r.id;
      assert rows[i + 1] == r && forall j :: 0 < j < i + 1 ==> rows[j] == rest[j - 1];
    }
  }

  lemma {:induction false} DedupedAreTheFirst(rows: seq<Row>, seen: set<nat>)
    ensures DistinctIds(Deduped(rows, seen))
    ensures forall r :: r in Deduped(rows, seen) <==> FirstOfId(rows, r) && r.id !in seen
  {
    if rows != [] {
      var head, rest := rows[0], rows[1..];
      var seen' := if head.id in seen then seen else seen + {head.id};
      DedupedAreTheFirst(rest, seen');
      forall r
        ensures FirstOfId(rows, r) <==> r == head || (r.id != head.id && FirstOfId(rest, r))
      {
        FirstOfCons(rows, r);
      }
      hide FirstOfId;
      if head.id !in seen { DistinctWithHead(head, Deduped(rest, seen')); }
    } else {
      assert forall r :: !FirstOfId(rows, r);
    }
  }

  /** Whatever is merged, fetched rows win over shown ones of their id; the result is newest first and only the cap
      leaves anything out. */
  lemma MergedMeans(existing: seq<Row>, incoming: seq<Row>, cap: nat)
    requires incoming != []
    ensures var out, all := Merged(existing, incoming, cap), incoming + existing;
            && |out| <= cap && Descending(out)
            && (forall r :: r in out ==> FirstOfId(all, r))
            && (forall r :: FirstOfId(all, r) && r !in out ==> |out| == cap && forall s :: s in out ==> s.id > r.id)
  {
    var all := incoming + existing;
    DedupedAreTheFirst(all, {});
    SortedIsDescending(Deduped(all, {}));
    hide FirstOfId, Deduped, Sorted;
    CutKeepsTheTop(Sorted(Deduped(all, {})), cap);
  }

  lemma CutKeepsTheTop(rows: seq<Row>, cap: nat)
    requires Descending(rows)
    ensures Descending(Upto(rows, cap))
    ensures forall r :: r in Upto(rows, cap) ==> r in rows
    ensures forall r :: r in rows && r !in Upto(rows, cap) ==>
              |Upto(rows, cap)| == cap && forall s :: s in Upto(rows, cap) ==> s.id > r.id
  {
    var out := Upto(rows, cap);
    forall r | r in rows
      ensures r in out || (|out| == cap && forall s :: s in out ==> s.id > r.id)
    {
      var i :| 0 <= i < |rows| && rows[i] == r;
      if i < |out| { assert out[i] == r; }
    }
  }

  // ---- The table over time ----

  /** Rows passing the filter with low < id <= high, newest first. */
  function Between(rows: seq<Row>, f: Query, low: nat, high: nat): seq<Row> {
    if rows == [] then []
    else
      var r := rows[|rows| - 1];
      (if Passes(f, r.record) && low < r.id <= high then [r] else []) + Between(rows[..|rows| - 1], f, low, high)
  }

  lemma {:induction false} BetweenAreTheMatches(rows: seq<Row>, f: Query, low: nat, high: nat)
    requires Ascending(rows)
    ensures Descending(Between(rows, f, low, high))
    ensures forall r :: r in Between(rows, f, low, high) <==> r in rows && Passes(f, r.record) && low < r.id <= high
  {
    if rows != [] {
      var init, last := rows[..|rows| - 1], rows[|rows| - 1];
      var rest := Between(init, f, low, high);
      assert rows == init + [last];
      AscendingInit(init, last);
      BetweenAreTheMatches(init, f, low, high);
      BetweenLast(init, last, f, low, high);
      hide Between, Passes, Ascending;
      if Passes(f, last.record) && low < last.id <= high { NewestFirst(last, rest); }
    }
  }

  lemma AscendingInit(init: seq<Row>, last: Row)
    requires Ascending(init + [last])
    ensures Ascending(init) && forall r :: r in init ==> r.id < last.id
  {
    var rows := init + [last];
    forall i | 0 <= i < |init|
      ensures init[i] == rows[i] && init[i].id < last.id
    {
      assert rows[i].id < rows[|init|].id;
    }
  }

  lemma BetweenLast(init: seq<Row>, last: Row, f: Query, low: nat, high: nat)
    ensures Between(init + [last], f, low, high) ==
            (if Passes(f, last.record) && low < last.id <= high then [last] else []) + Between(init, f, low, high)
    ensures forall r :: r in init + [last] <==> r in init || r == last
    ensures [] + Between(init, f, low, high) == Between(init, f, low, high)
  {
    assert (init + [last])[..|init|] == init;
    hide Passes;
  }

  lemma NewestFirst(r: Row, rest: seq<Row>)
    requires Descending(rest) && forall s :: s in rest ==> s.id < r.id
    ensures Descending([r] + rest) && [] + rest == rest
    ensures forall s :: s in [r] + rest <==> s == r || s in rest
  {
    assert forall i :: 0 <= i < |rest| ==> rest[i] in rest;
  }

  lemma BetweenInRange(rows: seq<Row>, f: Query, low: nat, high: nat)
    requires Ascending(rows)
    ensures forall i :: 0 <= i < |Between(rows, f, low, high)| ==> low < Between(rows, f, low, high)[i].id <= high
  {
    var these := Between(rows, f, low, high);
    BetweenAreTheMatches(rows, f, low, high);
    hide Between, Passes;
    assert forall i :: 0 <= i < |these| ==> these[i] in these;
  }

  /** What the server lists for a cursor is what lies beyond it. */
  lemma {:induction false} BeyondTheCursor(rows: seq<Row>, f: Query, after: nat, high: nat)
    requires forall r :: r in rows ==> 1 <= r.id <= high
    ensures AllKept(rows, f.(after := after)) == Between(rows, f, after, high)
  {
    if rows != [] {
      assert rows[|rows| - 1] in rows;
      BeyondTheCursor(rows[..|rows| - 1], f, after, high);
    }
  }

  lemma NewRowsStayOut(rows: seq<Row>, r: Row, f: Query, low: nat, high: nat)
    requires r.id > high
    ensures Between(rows + [r], f, low, high) == Between(rows, f, low, high)
  {
    assert (rows + [r])[..|rows|] == rows;
  }

  /** One request of the live tail: the cursor it carries and, once the server has looked, what it found. `high` is the
      newest id the server had then. */
  datatype Request = Asked(after: nat) | Answered(after: nat, high: nat, found: seq<Row>)

  datatype World = World(rows: seq<Row>, nextId: nat, shown: seq<Row>, cursor: nat, requests: map<nat, Request>)

  datatype Action =
    | Append(record: Record)
    | Ask(request: nat)
    | Answer(request: nat)
    | Receive(request: nat)
    | Lose(request: nat)

  /** The table cap of mergeRows and the server's limit for a query that sets none. */
  const CAP := 5000
  const LIMIT := 200

  ghost predicate TableOk(rows: seq<Row>, nextId: nat) {
    Ascending(rows) && nextId >= 1 && forall r :: r in rows ==> 1 <= r.id < nextId
  }

  /** After the full load with filter f. */
  function Loaded(rows: seq<Row>, nextId: nat, f: Query): World {
    var logs := Upto(AllKept(rows, f.(after := 0, limit := 0)), LIMIT);
    World(rows, nextId, logs, MaxId(logs, 0), map[])
  }

  predicate Enabled(w: World, a: Action) {
    match a
    case Append(_) => true
    case Ask(k) => k !in w.requests
    case Answer(k) => k in w.requests && w.requests[k].Asked?
    case Receive(k) => k in w.requests && w.requests[k].Answered?
    case Lose(k) => k in w.requests
  }

  function Apply(f: Query, w: World, a: Action): World
    requires Enabled(w, a)
  {
    match a
    case Append(record) => w.(rows := w.rows + [Row(w.nextId, record)], nextId := w.nextId + 1)
    case Ask(k) => w.(requests := w.requests[k := Asked(w.cursor)])
    case Answer(k) =>
      var after := w.requests[k].after;
      var found := Upto(AllKept(w.rows, f.(after := after, limit := 0)), LIMIT);
      w.(requests := w.requests[k := Answered(after, if w.nextId > 0 then w.nextId - 1 else 0, found)])
    case Receive(k) =>
      var found := w.requests[k].found;
      if found == [] then w.(requests := w.requests - {k})
      else w.(requests := w.requests - {k}, cursor := MaxId(found, w.cursor), shown := Merged(w.shown, found, CAP))
    case Lose(k) => w.(requests := w.requests - {k})
  }

  /** The server's answer is not cut off by its limit. */
  predicate InTime(f: Query, w: World, a: Action) {
    a.Answer? && a.request in w.requests ==>
      |AllKept(w.rows, f.(after := w.requests[a.request].after, limit := 0))| <= LIMIT
  }

  predicate Run(f: Query, w: World, acts: seq<Action>, end: World)
    decreases |acts|
  {
    if acts == [] then end == w
    else Enabled(w, acts[0]) && InTime(f, w, acts[0]) && Run(f, Apply(f, w, acts[0]), acts[1..], end)
  }

  ghost predicate RequestOk(f: Query, w: World, floor: nat, q: Request) {
    && floor <= q.after <= w.cursor
    && (q.Answered? ==> q.high < w.nextId && q.found == Between(w.rows, f, q.after, q.high))
  }

  /** The table shows the newest of what lies between the load's floor and the cursor. */
  ghost predicate Inv(f: Query, w: World, floor: nat) {
    && TableOk(w.rows, w.nextId)
    && floor <= w.cursor < w.nextId
    && w.shown == Upto(Between(w.rows, f, floor, w.cursor), CAP)
    && forall k :: k in w.requests ==> RequestOk(f, w, floor, w.requests[k])
  }

  lemma AppendKeepsInv(f: Query, w: World, floor: nat, record: Record)
    requires Inv(f, w, floor)
    ensures Inv(f, Apply(f, w, Append(record)), floor)
  {
    var r := Row(w.nextId, record);
    var w' := Apply(f, w, Append(record));
    NewRowsStayOut(w.rows, r, f, floor, w.cursor);
    forall k | k in w'.requests
      ensures RequestOk(f, w', floor, w'.requests[k])
    {
      var q := w.requests[k];
      assert RequestOk(f, w, floor, q);
      if q.Answered? { NewRowsStayOut(w.rows, r, f, q.after, q.high); }
    }
  }

  lemma AnswerKeepsInv(f: Query, w: World, floor: nat, k: nat)
    requires Inv(f, w, floor) && Enabled(w, Answer(k)) && InTime(f, w, Answer(k))
    ensures Inv(f, Apply(f, w, Answer(k)), floor)
  {
    var after := w.requests[k].after;
    assert RequestOk(f, w, floor, w.requests[k]);
    BeyondTheCursor(w.rows, f.(limit := 0), after, w.nextId - 1);
    FilterAlone(w.rows, f, f.(limit := 0), after, w.nextId - 1);
  }

  /** Between looks at the filter fields of the query only. */
  lemma {:induction false} FilterAlone(rows: seq<Row>, f: Query, g: Query, low: nat, high: nat)
    requires g == f.(after := g.after, limit := g.limit)
    ensures Between(rows, f, low, high) == Between(rows, g, low, high)
  {
    if rows != [] { FilterAlone(rows[..|rows| - 1], f, g, low, high); }
  }

  lemma ReceiveKeepsInv(f: Query, w: World, floor: nat, k: nat)
    requires Inv(f, w, floor) && Enabled(w, Receive(k))
    ensures Inv(f, Apply(f, w, Receive(k)), floor)
  {
    var w', q := Apply(f, w, Receive(k)), w.requests[k];
    assert RequestOk(f, w, floor, q);
    if q.found != [] {
      BetweenAreTheMatches(w.rows, f, q.after, q.high);
      BetweenAreTheMatches(w.rows, f, floor, w.cursor);
      BetweenAreTheMatches(w.rows, f, floor, w'.cursor);
      MaxOfDescending(q.found, w.cursor);
      assert q.found[0] in q.found;
      ShownAfterReceive(f, w, floor, k);
    }
    forall j | j in w'.requests
      ensures RequestOk(f, w', floor, w'.requests[j])
    {
      assert RequestOk(f, w, floor, w.requests[j]);
    }
  }

  lemma ShownAfterReceive(f: Query, w: World, floor: nat, k: nat)
    requires Inv(f, w, floor) && Enabled(w, Receive(k)) && w.requests[k].found != []
    ensures Merged(w.shown, w.requests[k].found, CAP)
            == Upto(Between(w.rows, f, floor, Apply(f, w, Receive(k)).cursor), CAP)
  {
    hide Passes, Between, Merged;
    var q := w.requests[k];
    assert RequestOk(f, w, floor, q);
    BetweenAreTheMatches(w.rows, f, q.after, q.high);
    MaxOfDescending(q.found, w.cursor);
    HeadIsIn(q.found);
    MergeCovers(w.rows, f, floor, w.cursor, q);
  }

  /** The rows shown so far and an answer to an earlier or the same cursor hold the top of everything up to the new
      one. */
  lemma MergeCovers(rows: seq<Row>, f: Query, floor: nat, cursor: nat, q: Request)
    requires Ascending(rows) && q.Answered? && q.found == Between(rows, f, q.after, q.high) != []
    requires floor <= q.after <= cursor
    ensures var shown := Upto(Between(rows, f, floor, cursor), CAP);
            var high := if q.found[0].id > cursor then q.found[0].id else cursor;
            Merged(shown, q.found, CAP) == Upto(Between(rows, f, floor, high), CAP)
  {
    hide Passes, Between, Merged;
    var before := Between(rows, f, floor, cursor);
    var shown := Upto(before, CAP);
    var high := if q.found[0].id > cursor then q.found[0].id else cursor;
    var whole := Between(rows, f, floor, high);
    BetweenAreTheMatches(rows, f, q.after, q.high);
    BetweenAreTheMatches(rows, f, floor, cursor);
    BetweenAreTheMatches(rows, f, floor, high);
    TopIsDescending(before, CAP);
    forall r | r in shown || r in q.found
      ensures r in whole && r in rows
    {
      if r in shown { TopIsPart(before, CAP, r); } else { DescendingHead(q.found, r); }
    }
    forall i | 0 <= i < |whole| && i < CAP
      ensures whole[i] in shown || whole[i] in q.found
    {
      assert whole[i] in whole;
      HeadIsIn(q.found);
      if whole[i].id <= cursor { EarlyStaysEarly(rows, f, floor, cursor, high, i); }
    }
    TableHasOneRowPerId(rows, q.found + shown);
    MergedIsTopOfUnion(shown, q.found, CAP, whole);
  }

  lemma TopIsPart(rows: seq<Row>, n: nat, r: Row)
    requires r in Upto(rows, n)
    ensures r in rows
  {}

  lemma TableHasOneRowPerId(rows: seq<Row>, some: seq<Row>)
    requires Ascending(rows) && forall r :: r in some ==> r in rows
    ensures OneRowPerId(some)
  {}

  lemma DescendingHead(rows: seq<Row>, r: Row)
    requires Descending(rows) && r in rows
    ensures r.id <= rows[0].id
  {}

  /** A row at position i of the longer listing sits no later in the one that stops earlier. */
  lemma EarlyStaysEarly(rows: seq<Row>, f: Query, low: nat, mid: nat, high: nat, i: nat)
    requires Ascending(rows) && low <= mid <= high
    requires i < |Between(rows, f, low, high)| && i < CAP && Between(rows, f, low, high)[i].id <= mid
    ensures Between(rows, f, low, high)[i] in Upto(Between(rows, f, low, mid), CAP)
  {
    SplitAtMid(rows, f, low, mid, high);
    var newer, older := Between(rows, f, mid, high), Between(rows, f, low, mid);
    BetweenInRange(rows, f, mid, high);
    hide Between;
    assert Between(rows, f, low, high)[i] == older[i - |newer|];
    assert Upto(older, CAP)[i - |newer|] == older[i - |newer|];
  }

  lemma {:induction false} NothingBeyond(rows: seq<Row>, f: Query, low: nat, high: nat)
    requires forall r :: r in rows ==> r.id <= low
    ensures Between(rows, f, low, high) == []
  {
    if rows != [] {
      assert rows[|rows| - 1] in rows;
      NothingBeyond(rows[..|rows| - 1], f, low, high);
    }
  }

  lemma {:induction false} SplitAtMid(rows: seq<Row>, f: Query, low: nat, mid: nat, high: nat)
    requires Ascending(rows) && low <= mid <= high
    ensures Between(rows, f, low, high) == Between(rows, f, mid, high) + Between(rows, f, low, mid)
  {
    if rows != [] {
      var init, last := rows[..|rows| - 1], rows[|rows| - 1];
      SplitAtMid(init, f, low, mid, high);
      if last.id <= mid {
        assert forall r :: r in init ==> r.id < last.id;
        NothingBeyond(init, f, mid, high);
      }
    }
  }

  lemma StepKeepsInv(f: Query, w: World, floor: nat, a: Action)
    requires Inv(f, w, floor) && Enabled(w, a) && InTime(f, w, a)
    ensures Inv(f, Apply(f, w, a), floor)
  {
    match a {
      case Append(record) => AppendKeepsInv(f, w, floor, record);
      case Answer(k) => AnswerKeepsInv(f, w, floor, k);
      case Receive(k) => ReceiveKeepsInv(f, w, floor, k);
      case Ask(k) =>
        forall j | j in Apply(f, w, a).requests
          ensures RequestOk(f, Apply(f, w, a), floor, Apply(f, w, a).requests[j])
        {
          if j != k { assert RequestOk(f, w, floor, w.requests[j]); }
        }
      case Lose(k) =>
        forall j | j in Apply(f, w, a).requests
          ensures RequestOk(f, Apply(f, w, a), floor, Apply(f, w, a).requests[j])
        {
          assert RequestOk(f, w, floor, w.requests[j]);
        }
    }
  }

  lemma {:induction false} InvRun(f: Query, w: World, floor: nat, acts: seq<Action>, end: World)
    requires Inv(f, w, floor) && Run(f, w, acts, end)
    ensures Inv(f, end, floor)
    decreases |acts|
  {
    if acts != [] {
      StepKeepsInv(f, w, floor, acts[0]);
      InvRun(f, Apply(f, w, acts[0]), floor, acts[1..], end);
    }
  }

  /** The newest matching row the first load left out, or 0. */
  function Floor(rows: seq<Row>, f: Query): nat {
    var all := AllKept(rows, f.(after := 0, limit := 0));
    if |all| <= LIMIT then 0 else all[LIMIT].id
  }

  lemma EverythingMatching(f: Query, rows: seq<Row>, nextId: nat)
    requires TableOk(rows, nextId)
    ensures AllKept(rows, f.(after := 0, limit := 0)) == Between(rows, f, 0, nextId - 1)
  {
    BeyondTheCursor(rows, f.(limit := 0), 0, nextId - 1);
    FilterAlone(rows, f, f.(limit := 0), 0, nextId - 1);
  }

  /** The top of a listing is the listing above the first row left out. */
  lemma TopIsBetween(rows: seq<Row>, f: Query, high: nat, n: nat)
    requires Ascending(rows)
    ensures var all := Between(rows, f, 0, high);
            var floor := if |all| <= n then 0 else all[n].id;
            var top := Upto(all, n);
            var cursor := if top == [] then 0 else top[0].id;
            top == Between(rows, f, floor, cursor) && (n > 0 ==> floor <= cursor) && cursor <= high
  {
    hide Passes;
    var all := Between(rows, f, 0, high);
    var floor := if |all| <= n then 0 else all[n].id;
    var top := Upto(all, n);
    var cursor := if top == [] then 0 else top[0].id;
    BetweenAreTheMatches(rows, f, 0, high);
    BetweenInRange(rows, f, 0, high);
    BetweenAreTheMatches(rows, f, floor, cursor);
    hide Between;
    TopOfWhole(all, Between(rows, f, floor, cursor), floor, cursor, n);
  }

  lemma TopOfWhole(all: seq<Row>, these: seq<Row>, floor: nat, cursor: nat, n: nat)
    requires Descending(all) && Descending(these) && forall i :: 0 <= i < |all| ==> all[i].id > 0
    requires floor == if |all| <= n then 0 else all[n].id
    requires cursor == if Upto(all, n) == [] then 0 else all[0].id
    requires forall r :: r in these <==> r in all && floor < r.id <= cursor
    ensures Upto(all, n) == these
  {
    var top := Upto(all, n);
    TopIsAboveTheFloor(all, floor, cursor, n);
    forall r | r in top
      ensures r in these
    {
      assert r in all;
    }
    forall r | r in these
      ensures r in top
    {
      AboveTheFloorIsTop(all, floor, n, r);
    }
    TopIsDescending(all, n);
    hide Descending, Upto;
    assert forall i :: 0 <= i < |top| ==> top[i] in top;
    assert forall i :: 0 <= i < |these| ==> these[i] in these;
    SameTop(these, top, |these| + |top|);
    UptoAll(these, |top|);
    UptoAll(top, |these|);
  }

  lemma UptoAll(rows: seq<Row>, more: nat)
    ensures Upto(rows, |rows| + more) == rows && Upto(rows, more + |rows|) == rows
  {}

  lemma TopIsAboveTheFloor(all: seq<Row>, floor: nat, cursor: nat, n: nat)
    requires Descending(all) && forall i :: 0 <= i < |all| ==> all[i].id > 0
    requires floor == if |all| <= n then 0 else all[n].id
    requires cursor == if Upto(all, n) == [] then 0 else all[0].id
    ensures forall r :: r in Upto(all, n) ==> r in all && floor < r.id <= cursor
  {}

  lemma AboveTheFloorIsTop(all: seq<Row>, floor: nat, n: nat, r: Row)
    requires Descending(all) && r in all && floor < r.id && floor == if |all| <= n then 0 else all[n].id
    ensures r in Upto(all, n)
  {
    var i :| 0 <= i < |all| && all[i] == r;
    assert i < n || |all| <= n;
    assert Upto(all, n)[i] == r;
  }

  lemma LoadedWorld(f: Query, rows: seq<Row>, nextId: nat)
    requires TableOk(rows, nextId)
    ensures var top := Upto(Between(rows, f, 0, nextId - 1), LIMIT);
            Loaded(rows, nextId, f) == World(rows, nextId, top, MaxId(top, 0), map[])
    ensures var all := Between(rows, f, 0, nextId - 1);
            Floor(rows, f) == if |all| <= LIMIT then 0 else all[LIMIT].id
  {
    EverythingMatching(f, rows, nextId);
    hide Between, AllKept, MaxId;
  }

  lemma LoadedSatisfiesInv(f: Query, rows: seq<Row>, nextId: nat)
    requires TableOk(rows, nextId)
    ensures Inv(f, Loaded(rows, nextId, f), Floor(rows, f))
    ensures Loaded(rows, nextId, f).shown == Between(rows, f, Floor(rows, f), Loaded(rows, nextId, f).cursor)
  {
    hide Passes, AllKept, Loaded, Floor, Between;
    var all := Between(rows, f, 0, nextId - 1);
    var top := Upto(all, LIMIT);
    LoadedWorld(f, rows, nextId);
    TopIsBetween(rows, f, nextId - 1, LIMIT);
    BetweenAreTheMatches(rows, f, 0, nextId - 1);
    TopIsDescending(all, LIMIT);
    MaxOfDescending(top, 0);
    hide MaxId;
    assert Upto(top, CAP) == top;
  }

  lemma TopIsDescending(rows: seq<Row>, n: nat)
    requires Descending(rows)
    ensures Descending(Upto(rows, n))
  {}

  /** In every interleaving of inserts, overlapping requests, answers and losses in which no answer is cut off, the
      table shown is descending without duplicates and is the newest CAP of the rows of the first load plus every
      matching row from there up to the cursor. */
  lemma TableIsTheNewestMatches(f: Query, rows: seq<Row>, nextId: nat, acts: seq<Action>, w: World)
    requires TableOk(rows, nextId) && Run(f, Loaded(rows, nextId, f), acts, w)
    ensures w.shown == Upto(Between(w.rows, f, Floor(rows, f), w.cursor), CAP)
    ensures Descending(w.shown)
    ensures Loaded(rows, nextId, f).shown == Between(rows, f, Floor(rows, f), Loaded(rows, nextId, f).cursor)
  {
    LoadedSatisfiesInv(f, rows, nextId);
    InvRun(f, Loaded(rows, nextId, f), Floor(rows, f), acts, w);
    BetweenAreTheMatches(w.rows, f, Floor(rows, f), w.cursor);
  }

  /** Receiving an answer catches the table up with everything the server had when it answered. */
  lemma ReceivingCatchesUp(f: Query, rows: seq<Row>, nextId: nat, acts: seq<Action>, w: World, k: nat, r: Row)
    requires TableOk(rows, nextId) && Run(f, Loaded(rows, nextId, f), acts, w)
    requires Enabled(w, Receive(k)) && r in w.rows && Passes(f, r.record) && r.id <= w.requests[k].high
    ensures r.id <= Apply(f, w, Receive(k)).cursor
  {
    LoadedSatisfiesInv(f, rows, nextId);
    InvRun(f, Loaded(rows, nextId, f), Floor(rows, f), acts, w);
    var q := w.requests[k];
    assert RequestOk(f, w, Floor(rows, f), q);
    BetweenAreTheMatches(w.rows, f, q.after, q.high);
    MaxOfDescending(q.found, w.cursor);
    if r.id > q.after { assert r in q.found; DescendingHead(q.found, r); }
  }

  /** One tick with nothing else under way: the merged table is the newest CAP of everything from the load's floor on
      exactly when the server's limit did not cut the answer off. Rows cut off are never asked for again. */
  lemma TickCatchesUpIffNotCutOff(rows: seq<Row>, f: Query, floor: nat, cursor: nat, high: nat)
    requires Ascending(rows) && floor <= cursor <= high
    ensures var shown, beyond := Upto(Between(rows, f, floor, cursor), CAP), Between(rows, f, cursor, high);
      Merged(shown, Upto(beyond, LIMIT), CAP) == Upto(Between(rows, f, floor, high), CAP) <==> |beyond| <= LIMIT
  {
    var older, beyond := Between(rows, f, floor, cursor), Between(rows, f, cursor, high);
    SplitAtMid(rows, f, floor, cursor, high);
    BetweenInRange(rows, f, floor, cursor);
    BetweenInRange(rows, f, cursor, high);
    BetweenAreTheMatches(rows, f, floor, cursor);
    BetweenAreTheMatches(rows, f, cursor, high);
    hide Between, Merged, Passes;
    NewerOnTop(Upto(older, CAP), Upto(beyond, LIMIT), cursor);
    TopOfBoth(older, beyond, cursor);
  }

  /** Merging rows that are all newer puts them on top. */
  lemma NewerOnTop(shown: seq<Row>, found: seq<Row>, cursor: nat)
    requires Descending(shown) && Descending(found)
    requires forall i :: 0 <= i < |shown| ==> shown[i].id <= cursor
    requires forall i :: 0 <= i < |found| ==> found[i].id > cursor
    ensures Merged(shown, found, CAP) == Upto(found + shown, CAP)
  {
    var whole := found + shown;
    assert Descending(whole);
    DescendingIsOnePerId(whole);
    assert forall i :: 0 <= i < |whole| ==> whole[i] in whole;
    MergedIsTopOfUnion(shown, found, CAP, whole);
  }

  lemma DescendingIsOnePerId(rows: seq<Row>)
    requires Descending(rows)
    ensures OneRowPerId(rows)
  {}

  lemma TopOfBoth(older: seq<Row>, beyond: seq<Row>, cursor: nat)
    requires forall i :: 0 <= i < |older| ==> older[i].id <= cursor
    requires forall i :: 0 <= i < |beyond| ==> beyond[i].id > cursor
    ensures Upto(Upto(beyond, LIMIT) + Upto(older, CAP), CAP) == Upto(beyond + older, CAP) <==> |beyond| <= LIMIT
  {
    var merged, wanted := Upto(Upto(beyond, LIMIT) + Upto(older, CAP), CAP), Upto(beyond + older, CAP);
    if |beyond| > LIMIT {
      assert wanted[LIMIT] == beyond[LIMIT];
      if |merged| > LIMIT { assert merged[LIMIT] == older[0]; }
    }
  }
}
