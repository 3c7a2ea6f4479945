/** The log table: inserts with increasing ids, the filtered newest-first query with its limit, and pruning. */
module LogStore {
  import opened LikePattern

  datatype Record = Record(ts: string, level: string, service: string, message: string, extra: string)

  datatype Row = Row(id: nat, record: Record)

  datatype Query = Query(service: string, level: string, from: string, to: string, after: int, q: string, limit: int)

  /** Text comparison as the database does it on timestamps. */
  predicate TextLe(a: string, b: string) {
    if a == "" then true
    else if b == "" then false
    else a[0] < b[0] || (a[0] == b[0] && TextLe(a[1..], b[1..]))
  }

  predicate Passes(q: Query, r: Record) {
    && (q.service != "" ==> r.service == q.service)
    && (q.level != "" ==> r.level == q.level)
    && (q.from != "" ==> TextLe(q.from, r.ts))
    && (q.to != "" ==> TextLe(r.ts, q.to))
    && (q.q != "" ==> Found(q.q, r.message))
  }

  predicate Keeps(q: Query, r: Row) {
    Passes(q, r.record) && (q.after > 0 ==> r.id > q.after)
  }

  function LimitOf(q: Query): nat {
    if q.limit <= 0 then 200 else if q.limit > 1000 then 1000 else q.limit
  }

  /** Every row the query keeps, newest first. */
  function AllKept(rows: seq<Row>, q: Query): seq<Row> {
    if rows == [] then []
    else
      var r := rows[|rows| - 1];
      (if Keeps(q, r) then [r] else []) + AllKept(rows[..|rows| - 1], q)
  }

  function Upto<T>(s: seq<T>, n: nat): seq<T> {
    if |s| <= n then s else s[..n]
  }

  ghost predicate Ascending(rows: seq<Row>) {
    forall i, j :: 0 <= i < j < |rows| ==> rows[i].id < rows[j].id
  }

  ghost predicate Descending(rows: seq<Row>) {
    forall i, j :: 0 <= i < j < |rows| ==> rows[i].id > rows[j].id
  }

  lemma {:induction false} AllKeptAreTheMatches(rows: seq<Row>, q: Query)
    requires Ascending(rows)
    ensures Descending(AllKept(rows, q))
    ensures forall r :: r in AllKept(rows, q) <==> r in rows && Keeps(q, r)
  {
    if rows != [] {
      var init, last := rows[..|rows| - 1], rows[|rows| - 1];
      assert rows == init + [last];
      AllKeptAreTheMatches(init, q);
      assert forall r :: r in init ==> r.id < last.id;
      var rest := AllKept(init, q);
      hide Keeps;
      assert forall i :: 0 <= i < |rest| ==> rest[i] in rest;
      assert forall r :: r in rows <==> r in init || r == last;
    }
  }

  /** The query's answer, filter by filter. */
  lemma SelectedMeans(rows: seq<Row>, q: Query)
    requires Ascending(rows)
    ensures var limit := if q.limit <= 0 then 200 else if q.limit > 1000 then 1000 else q.limit;
            var out := Upto(AllKept(rows, q), LimitOf(q));
            && |out| <= limit && Descending(out)
            && forall r :: r in out <==>
                 && r in rows
                 && (q.service != "" ==> r.record.service == q.service)
                 && (q.level != "" ==> r.record.level == q.level)
                 && (q.from != "" ==> TextLe(q.from, r.record.ts))
                 && (q.to != "" ==> TextLe(r.record.ts, q.to))
                 && (q.q != "" ==> Found(q.q, r.record.message))
                 && (q.after > 0 ==> r.id > q.after)
                 && (|out| == limit ==> r.id >= out[limit - 1].id)
  {
    AllKeptAreTheMatches(rows, q);
    hide AllKept, TextLe, Found;
    TopOf(AllKept(rows, q), LimitOf(q));
  }

  lemma TopOf(all: seq<Row>, limit: nat)
    requires Descending(all) && limit > 0
    ensures Descending(Upto(all, limit))
    ensures forall r :: r in Upto(all, limit) <==>
              r in all && (|Upto(all, limit)| == limit ==> r.id >= Upto(all, limit)[limit - 1].id)
  {
    var out := Upto(all, limit);
    forall r | r in all && (|out| == limit ==> r.id >= out[limit - 1].id)
      ensures r in out
    {
      var i :| 0 <= i < |all| && all[i] == r;
      if i < limit { assert out[i] == r; }
    }
  }

  lemma KeptStep(rows: seq<Row>, i: nat, q: Query)
    requires 0 < i <= |rows|
    ensures AllKept(rows[..i], q) == (if Keeps(q, rows[i - 1]) then [rows[i - 1]] else []) + AllKept(rows[..i - 1], q)
  {
    assert rows[..i][..i - 1] == rows[..i - 1];
  }

  lemma KeptNothing(q: Query)
    ensures AllKept([], q) == []
  {}

  class Store {
    var rows: seq<Row>
    var nextId: nat

    ghost predicate Valid()
      reads this
    {
      Ascending(rows) && nextId >= 1 && forall i :: 0 <= i < |rows| ==> 1 <= rows[i].id < nextId
    }

    constructor ()
      ensures Valid() && rows == [] && nextId == 1
    {
      rows, nextId := [], 1;
    }

    /** One transaction: all records or none. Ids are never reused, not even after pruning. */
    method Insert(recs: seq<Record>, commitOk: bool) returns (n: nat)
      requires Valid()
      modifies this
      ensures Valid()
      ensures !commitOk ==> n == 0 && rows == old(rows) && nextId == old(nextId)
      ensures commitOk ==>
                && n == |recs| && nextId == old(nextId) + |recs| && |rows| == |old(rows)| + |recs|
                && rows[..|old(rows)|] == old(rows)
                && forall i :: 0 <= i < |recs| ==> rows[|old(rows)| + i] == Row(old(nextId) + i, recs[i])
    {
      if !commitOk || |recs| == 0 { return 0; }
      for i := 0 to |recs|
        invariant Valid()
        invariant nextId == old(nextId) + i && |rows| == |old(rows)| + i && rows[..|old(rows)|] == old(rows)
        invariant forall j :: 0 <= j < i ==> rows[|old(rows)| + j] == Row(old(nextId) + j, recs[j])
      {
        rows := rows + [Row(nextId, recs[i])];
        nextId := nextId + 1;
      }
      return |recs|;
    }

    /** The newest rows that pass every set filter, highest id first, no more than the clamped limit. */
    method Select(q: Query) returns (out: seq<Row>)
      requires Valid()
      ensures out == Upto(AllKept(rows, q), LimitOf(q))
      ensures |out| <= if q.limit <= 0 then 200 else if q.limit > 1000 then 1000 else q.limit
      ensures Descending(out)
      // every row that meets the filters, unless newer ones have used up the limit
      ensures var limit := if q.limit <= 0 then 200 else if q.limit > 1000 then 1000 else q.limit;
              forall r :: r in out <==>
                && r in rows
                && (q.service != "" ==> r.record.service == q.service)
                && (q.level != "" ==> r.record.level == q.level)
                && (q.from != "" ==> TextLe(q.from, r.record.ts))
                && (q.to != "" ==> TextLe(r.record.ts, q.to))
                && (q.q != "" ==> Found(q.q, r.record.message))
                && (q.after > 0 ==> r.id > q.after)
                && (|out| == limit ==> r.id >= out[limit - 1].id)
    {
      SelectedMeans(rows, q);
      hide *;
      out := ScanNewest(q, LimitOf(q));
    }

    /** The scan itself: rows from the newest on, until the limit. */
    method ScanNewest(q: Query, limit: nat) returns (out: seq<Row>)
      ensures out == Upto(AllKept(rows, q), limit)
    {
      hide Keeps, AllKept;
      out := [];
      var i := |rows|;
      assert rows[..|rows|] == rows;
      KeptNothing(q);
      while i > 0 && |out| < limit
        invariant 0 <= i <= |rows| && |out| <= limit
        invariant out + AllKept(rows[..i], q) == AllKept(rows, q)
      {
        KeptStep(rows, i, q);
        if Keeps(q, rows[i - 1]) { out := out + [rows[i - 1]]; }
        i := i - 1;
      }
    }

    /** Rows with a timestamp before the cutoff go; rows without one stay. */
    method Prune(cutoff: string) returns (n: nat)
      requires Valid()
      modifies this`rows
      ensures Valid()
      ensures forall r :: r in rows <==> r in old(rows) && (r.record.ts == "" || TextLe(cutoff, r.record.ts))
      ensures n == |old(rows)| - |rows|
    {
      var kept: seq<Row> := [];
      for i := 0 to |rows|
        invariant |kept| <= i && Ascending(kept)
        invariant forall j :: 0 <= j < |kept| ==> kept[j] in rows[..i]
        invariant forall r :: r in kept <==> r in rows[..i] && (r.record.ts == "" || TextLe(cutoff, r.record.ts))
      {
        assert rows[..i + 1] == rows[..i] + [rows[i]];
        if rows[i].record.ts == "" || TextLe(cutoff, rows[i].record.ts) {
          kept := kept + [rows[i]];
        }
      }
      assert rows[..|rows|] == rows;
      n := |rows| - |kept|;
      rows := kept;
    }
  }
}
