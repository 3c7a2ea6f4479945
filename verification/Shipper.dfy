/** The log shipper: a bounded queue, a batch, and a capped spool file, with one goroutine doing all delivery.
    Values and what each routine computes first, then the object whose methods do it in place. */
module Shipper {

  /** A log record: its place in the order of offering and the length of its spool line, newline included. */
  datatype Record = Record(n: nat, size: nat)

  datatype Options = Options(batchSize: nat, queueSize: nat, maxBytes: int) {
    /** What withDefaults guarantees. */
    predicate Valid() {
      batchSize > 0 && queueSize > 0 && maxBytes > 0
    }
  }

  /** One call of POST /api/ingest. */
  datatype Post = Post(records: seq<Record>, ok: bool)

  /** `wire` is every POST so far; `evicted` fell to the spool cap; `lost` was counted as dropped. */
  datatype State = State(queue: seq<Record>, batch: seq<Record>, spool: seq<Record>, dropped: nat,
                         wire: seq<Post>, evicted: seq<Record>, lost: seq<Record>)

  function Bytes(recs: seq<Record>): nat {
    if recs == [] then 0 else recs[0].size + Bytes(recs[1..])
  }

  function Min(a: nat, b: nat): nat {
    if a <= b then a else b
  }

  /** The POSTs of one send or drain from record `start` on, when the server takes the next `healthy` of them and
      refuses the one after. */
  function Posts(recs: seq<Record>, start: nat, size: nat, healthy: nat): seq<Post>
    requires size > 0
    decreases |recs| - start
  {
    if start >= |recs| then []
    else
      var end := Min(start + size, |recs|);
      if healthy == 0 then [Post(recs[start..end], false)]
      else [Post(recs[start..end], true)] + Posts(recs, end, size, healthy - 1)
  }

  /** The first record they do not get accepted. */
  function Taken(recs: seq<Record>, start: nat, size: nat, healthy: nat): (k: nat)
    requires size > 0 && start <= |recs|
    ensures start <= k <= |recs|
    decreases |recs| - start
  {
    if start == |recs| || healthy == 0 then start
    else Taken(recs, Min(start + size, |recs|), size, healthy - 1)
  }

  /** The records the server has acknowledged, in the order of the POSTs. */
  function Acknowledged(wire: seq<Post>): seq<Record> {
    if wire == [] then [] else (if wire[0].ok then wire[0].records else []) + Acknowledged(wire[1..])
  }

  /** How many of the oldest spooled records go so that the rest fits. */
  function Overflow(recs: seq<Record>, maxBytes: int): (k: nat)
    ensures k <= |recs|
  {
    if recs == [] || Bytes(recs) <= maxBytes then 0 else 1 + Overflow(recs[1..], maxBytes)
  }

  function Capped(o: Options, s: State): State {
    var k := Overflow(s.spool, o.maxBytes);
    s.(spool := s.spool[k..], evicted := s.evicted + s.spool[..k])
  }

  /** `openOk` is whether the spool file could be opened for appending. */
  function Appended(o: Options, s: State, recs: seq<Record>, openOk: bool): State {
    if recs == [] then s
    else if !openOk then s.(dropped := s.dropped + |recs|, lost := s.lost + recs)
    else Capped(o, s.(spool := s.spool + recs))
  }

  function SentOff(o: Options, s: State, recs: seq<Record>, healthy: nat, openOk: bool): State
    requires o.Valid()
  {
    Appended(o, s.(wire := s.wire + Posts(recs, 0, o.batchSize, healthy)),
             recs[Taken(recs, 0, o.batchSize, healthy)..], openOk)
  }

  function Drained(o: Options, s: State, healthy: nat): State
    requires o.Valid()
  {
    s.(wire := s.wire + Posts(s.spool, 0, o.batchSize, healthy),
       spool := s.spool[Taken(s.spool, 0, o.batchSize, healthy)..])
  }

  function Offered(o: Options, s: State, r: Record): State {
    if |s.queue| < o.queueSize then s.(queue := s.queue + [r])
    else s.(dropped := s.dropped + 1, lost := s.lost + [r])
  }

  /** Sending the batch, if there is one, and starting a new one. */
  function Flushed(o: Options, s: State, healthy: nat, openOk: bool): State
    requires o.Valid()
  {
    if s.batch == [] then s else SentOff(o, s, s.batch, healthy, openOk).(batch := [])
  }

  function Received(o: Options, s: State, healthy: nat, openOk: bool): State
    requires o.Valid() && s.queue != []
  {
    var s1 := s.(queue := s.queue[1..], batch := s.batch + [s.queue[0]]);
    if |s1.batch| >= o.batchSize then Flushed(o, s1, healthy, openOk) else s1
  }

  // ---- What a series of POSTs means ----

  /** The accepted chunks, one after another, are a prefix of the records. */
  lemma {:induction false} PostsDeliverAPrefix(recs: seq<Record>, start: nat, size: nat, healthy: nat)
    requires size > 0 && start <= |recs|
    ensures Acknowledged(Posts(recs, start, size, healthy)) == recs[start..Taken(recs, start, size, healthy)]
    decreases |recs| - start
  {
    if start < |recs| {
      var end := Min(start + size, |recs|);
      if healthy > 0 {
        var k := Taken(recs, end, size, healthy - 1);
        PostsDeliverAPrefix(recs, end, size, healthy - 1);
        assert Posts(recs, start, size, healthy) ==
               [Post(recs[start..end], true)] + Posts(recs, end, size, healthy - 1);
        assert Taken(recs, start, size, healthy) == k;
        hide Posts, Taken, Acknowledged;
        PostThenMore(recs[start..end], Posts(recs, end, size, healthy - 1));
        assert recs[start..end] + recs[end..k] == recs[start..k];
      } else {
        assert Acknowledged([Post(recs[start..end], false)]) == [];
      }
    }
  }

  /** Each POST carries 1 to BatchSize records; only the last may be refused, and it is refused exactly when something
      is left, beginning with what is left. */
  lemma {:induction false} PostsHaveShape(recs: seq<Record>, start: nat, size: nat, healthy: nat)
    requires size > 0 && start <= |recs|
    ensures var posts, k := Posts(recs, start, size, healthy), Taken(recs, start, size, healthy);
            && (forall i :: 0 <= i < |posts| ==> 1 <= |posts[i].records| <= size)
            && (forall i :: 0 <= i < |posts| - 1 ==> posts[i].ok)
            && (k < |recs| <==> posts != [] && !posts[|posts| - 1].ok)
            && (k < |recs| ==> posts[|posts| - 1].records == recs[k..Min(k + size, |recs|)])
    decreases |recs| - start
  {
    if start < |recs| && healthy > 0 {
      var end := Min(start + size, |recs|);
      var first, rest := Post(recs[start..end], true), Posts(recs, end, size, healthy - 1);
      PostsHaveShape(recs, end, size, healthy - 1);
      var posts := [first] + rest;
      assert Posts(recs, start, size, healthy) == posts;
      hide Posts, Taken;
      assert forall i :: 0 < i < |posts| ==> posts[i] == rest[i - 1];
    }
  }

  lemma PostThenMore(records: seq<Record>, rest: seq<Post>)
    ensures Acknowledged([Post(records, true)] + rest) == records + Acknowledged(rest)
  {
    assert ([Post(records, true)] + rest)[1..] == rest;
  }

  lemma {:induction false} EnoughHealthTakesAll(recs: seq<Record>, start: nat, size: nat, healthy: nat)
    requires size > 0 && start <= |recs| <= start + healthy
    ensures Taken(recs, start, size, healthy) == |recs|
    decreases |recs| - start
  {
    if start < |recs| { EnoughHealthTakesAll(recs, Min(start + size, |recs|), size, healthy - 1); }
  }

  lemma {:induction false} AcknowledgedConcat(v: seq<Post>, w: seq<Post>)
    ensures Acknowledged(v + w) == Acknowledged(v) + Acknowledged(w)
  {
    if v == [] {
      assert v + w == w;
    } else {
      var head := if v[0].ok then v[0].records else [];
      assert (v + w)[0] == v[0] && (v + w)[1..] == v[1..] + w;
      AcknowledgedConcat(v[1..], w);
      assert Acknowledged(v + w) == head + (Acknowledged(v[1..]) + Acknowledged(w));
    }
  }

  // ---- What the cap means ----

  lemma {:induction false} BytesOfSuffixes(recs: seq<Record>, i: nat, j: nat)
    requires i <= j <= |recs|
    ensures Bytes(recs[j..]) <= Bytes(recs[i..])
    decreases j - i
  {
    if i < j {
      BytesOfSuffixes(recs, i + 1, j);
      assert recs[i..][1..] == recs[i + 1..];
    }
  }

  /** The cap drops the shortest oldest prefix that brings the rest under the limit. */
  lemma {:induction false} OverflowIsLeast(recs: seq<Record>, maxBytes: int)
    requires maxBytes >= 0
    ensures Bytes(recs[Overflow(recs, maxBytes)..]) <= maxBytes
    ensures forall j :: 0 <= j < Overflow(recs, maxBytes) ==> Bytes(recs[j..]) > maxBytes
    decreases |recs|
  {
    if recs == [] || Bytes(recs) <= maxBytes {
      assert recs[0..] == recs;
    } else {
      OverflowIsLeast(recs[1..], maxBytes);
      var k := Overflow(recs[1..], maxBytes);
      assert recs[1..][k..] == recs[k + 1..];
      forall j | 0 <= j < k + 1
        ensures Bytes(recs[j..]) > maxBytes
      {
        if j == 0 { assert recs[0..] == recs; } else { assert recs[1..][j - 1..] == recs[j..]; }
      }
    }
  }

  /** No other prefix does both. */
  lemma OverflowIsTheOnlyCut(recs: seq<Record>, maxBytes: int, k: nat)
    requires maxBytes >= 0 && k <= |recs|
    requires Bytes(recs[k..]) <= maxBytes && forall j :: 0 <= j < k ==> Bytes(recs[j..]) > maxBytes
    ensures k == Overflow(recs, maxBytes)
  {
    OverflowIsLeast(recs, maxBytes);
  }

  /** `kept` are the newest of `all` that fit: with any more of them the limit is passed. */
  ghost predicate KeepsNewest(all: seq<Record>, kept: seq<Record>, maxBytes: int) {
    && |kept| <= |all| && kept == all[|all| - |kept|..] && Bytes(kept) <= maxBytes
    && forall j :: 0 <= j < |all| - |kept| ==> Bytes(all[j..]) > maxBytes
  }

  lemma CappedMeans(o: Options, s: State)
    requires o.maxBytes >= 0
    ensures var s' := Capped(o, s);
            KeepsNewest(s.spool, s'.spool, o.maxBytes) && s'.evicted + s'.spool == s.evicted + s.spool
  {
    OverflowIsLeast(s.spool, o.maxBytes);
    var k := Overflow(s.spool, o.maxBytes);
    assert s.spool == s.spool[..k] + s.spool[k..];
  }

  // ---- What one send does ----

  /** The server takes whole chunks, as many as it is healthy for. */
  lemma {:induction false} TakenIs(recs: seq<Record>, start: nat, size: nat, healthy: nat)
    requires size > 0 && start <= |recs|
    ensures healthy * size >= 0 && Taken(recs, start, size, healthy) == Min(|recs|, start + healthy * size)
    decreases |recs| - start
  {
    ProductGrows(healthy, size);
    if start < |recs| && healthy > 0 {
      TakenIs(recs, Min(start + size, |recs|), size, healthy - 1);
      ProductGrows(healthy - 1, size);
    }
  }

  lemma ProductGrows(n: nat, size: nat)
    ensures n * size >= 0 && (n + 1) * size == n * size + size
    ensures n > 0 ==> (n - 1) * size == n * size - size
  {}

  /** Chunk i is the i-th BatchSize records, and it is accepted while the server is healthy. */
  lemma {:induction false} PostAt(recs: seq<Record>, start: nat, size: nat, healthy: nat, i: nat)
    requires size > 0 && start <= |recs| && i < |Posts(recs, start, size, healthy)|
    ensures var from := start + i * size;
            && 0 <= from < |recs|
            && Posts(recs, start, size, healthy)[i] == Post(recs[from..Min(from + size, |recs|)], i < healthy)
    decreases i
  {
    if i > 0 {
      PostAt(recs, Min(start + size, |recs|), size, healthy - 1, i - 1);
      ProductGrows(i, size);
    }
  }

  /** One send: the server takes whole chunks while it is healthy; the rest is spooled, the oldest spooled records
      making room, or counted as dropped when the file cannot be opened. */
  lemma SentOffMeans(o: Options, s: State, recs: seq<Record>, healthy: nat, openOk: bool)
    requires o.Valid()
    ensures healthy * o.batchSize >= 0
    ensures var s', rest := SentOff(o, s, recs, healthy, openOk), recs[Min(|recs|, healthy * o.batchSize)..];
            && s'.queue == s.queue && s'.batch == s.batch
            && Acknowledged(s'.wire) == Acknowledged(s.wire) + recs[..|recs| - |rest|]
            && (rest == [] ==> s' == s.(wire := s'.wire))
            && (rest != [] && !openOk ==>
                  s' == s.(wire := s'.wire, dropped := s.dropped + |rest|, lost := s.lost + rest))
            && (rest != [] && openOk ==>
                  && s' == s.(wire := s'.wire, spool := s'.spool, evicted := s'.evicted)
                  && KeepsNewest(s.spool + rest, s'.spool, o.maxBytes)
                  && s'.evicted + s'.spool == s.evicted + s.spool + rest)
  {
    TakenIs(recs, 0, o.batchSize, healthy);
    PostsDeliverAPrefix(recs, 0, o.batchSize, healthy);
    AcknowledgedConcat(s.wire, Posts(recs, 0, o.batchSize, healthy));
    var n := Taken(recs, 0, o.batchSize, healthy);
    var s1 := s.(wire := s.wire + Posts(recs, 0, o.batchSize, healthy), spool := s.spool + recs[n..]);
    CappedMeans(o, s1);
    hide Posts, Taken, Acknowledged, KeepsNewest, Overflow;
    assert s1.evicted + s1.spool == s.evicted + s.spool + recs[n..];
  }

  /** One retry of the spool: whole chunks from its front, as many as the server is healthy for. */
  lemma DrainedMeans(o: Options, s: State, healthy: nat)
    requires o.Valid()
    ensures healthy * o.batchSize >= 0
    ensures var s', n := Drained(o, s, healthy), Min(|s.spool|, healthy * o.batchSize);
            && s' == s.(wire := s'.wire, spool := s.spool[n..])
            && Acknowledged(s'.wire) == Acknowledged(s.wire) + s.spool[..n]
  {
    TakenIs(s.spool, 0, o.batchSize, healthy);
    PostsDeliverAPrefix(s.spool, 0, o.batchSize, healthy);
    AcknowledgedConcat(s.wire, Posts(s.spool, 0, o.batchSize, healthy));
  }

  // ---- The object ----

  class Shipper {
    const o: Options
    var queue: seq<Record>
    var batch: seq<Record>
    var spool: seq<Record>
    var dropped: nat
    ghost var wire: seq<Post>
    ghost var evicted: seq<Record>
    ghost var lost: seq<Record>

    ghost function View(): State
      reads this
    {
      State(queue, batch, spool, dropped, wire, evicted, lost)
    }

    constructor (o: Options, left: seq<Record>)
      requires o.Valid()
      ensures this.o == o && View() == State([], [], left, 0, [], [], [])
    {
      this.o := o;
      queue, batch, spool, dropped := [], [], left, 0;
      wire, evicted, lost := [], [], [];
    }

    /** Never blocks: a full queue drops the record and counts it. */
    method Enqueue(r: Record)
      modifies this`queue, this`dropped, this`lost
      ensures |old(queue)| < o.queueSize ==>
                queue == old(queue) + [r] && dropped == old(dropped) && lost == old(lost)
      ensures |old(queue)| >= o.queueSize ==>
                queue == old(queue) && dropped == old(dropped) + 1 && lost == old(lost) + [r]
      ensures View() == Offered(o, old(View()), r)
    {
      if |queue| < o.queueSize {
        queue := queue + [r];
      } else {
        dropped := dropped + 1;
        lost := lost + [r];
      }
    }

    /** `healthy` is how many POSTs the server takes before it refuses one. */
    method Send(records: seq<Record>, healthy: nat, openOk: bool)
      requires o.Valid()
      modifies this`spool, this`dropped, this`wire, this`evicted, this`lost
      ensures View() == SentOff(o, old(View()), records, healthy, openOk)
    {
      var start, posted := 0, 0;
      ghost var all, taken := Posts(records, 0, o.batchSize, healthy), Taken(records, 0, o.batchSize, healthy);
      while start < |records|
        invariant 0 <= start <= |records| && posted <= healthy
        invariant spool == old(spool) && dropped == old(dropped) && evicted == old(evicted) && lost == old(lost)
        invariant wire + Posts(records, start, o.batchSize, healthy - posted) == old(wire) + all
        invariant Taken(records, start, o.batchSize, healthy - posted) == taken
        decreases |records| - start
      {
        var end := Min(start + o.batchSize, |records|);
        var ok := posted < healthy;
        wire := wire + [Post(records[start..end], ok)];
        if !ok {
          SpoolAppend(records[start..], openOk);
          return;
        }
        start, posted := end, posted + 1;
      }
    }

    method SpoolAppend(records: seq<Record>, openOk: bool)
      requires o.Valid()
      modifies this`spool, this`dropped, this`evicted, this`lost
      ensures View() == Appended(o, old(View()), records, openOk)
      ensures records != [] && openOk ==> Bytes(spool) <= o.maxBytes
    {
      if records == [] { return; }
      if !openOk {
        dropped := dropped + |records|;
        lost := lost + records;
        return;
      }
      spool := spool + records;
      EnforceCap();
      OverflowIsLeast(old(spool) + records, o.maxBytes);
    }

    /** The size of the file is first read off the file system, then estimated again from the records. */
    method EnforceCap()
      requires o.Valid()
      modifies this`spool, this`evicted
      ensures View() == Capped(o, old(View()))
    {
      if Bytes(spool) <= o.maxBytes {
        assert spool[0..] == spool && evicted + spool[..0] == evicted;
        return;
      }
      var size := 0;
      for i := 0 to |spool|
        invariant size + Bytes(spool[i..]) == Bytes(spool)
      {
        size := size + spool[i].size;
        assert spool[i..][1..] == spool[i + 1..];
      }
      var drop := 0;
      assert spool[0..] == spool;
      while drop < |spool| && size > o.maxBytes
        invariant 0 <= drop <= |spool| && size == Bytes(spool[drop..])
        invariant drop + Overflow(spool[drop..], o.maxBytes) == Overflow(spool, o.maxBytes)
      {
        assert spool[drop..][1..] == spool[drop + 1..];
        size := size - spool[drop].size;
        drop := drop + 1;
      }
      evicted := evicted + spool[..drop];
      spool := spool[drop..];
    }

    method DrainSpool(healthy: nat)
      requires o.Valid()
      modifies this`spool, this`wire
      ensures View() == Drained(o, old(View()), healthy)
    {
      var recs := spool;
      if |recs| == 0 { return; }
      var sent, start, posted := 0, 0, 0;
      ghost var all, taken := Posts(recs, 0, o.batchSize, healthy), Taken(recs, 0, o.batchSize, healthy);
      while start < |recs|
        invariant 0 <= start <= |recs| && sent == start && posted <= healthy && spool == recs
        invariant wire + Posts(recs, start, o.batchSize, healthy - posted) == old(wire) + all
        invariant Taken(recs, start, o.batchSize, healthy - posted) == taken
        decreases |recs| - start
      {
        var end := Min(start + o.batchSize, |recs|);
        var ok := posted < healthy;
        wire := wire + [Post(recs[start..end], ok)];
        if !ok { break; }
        sent, start, posted := end, end, posted + 1;
      }
      assert wire == old(wire) + all && sent == taken;
      if sent == 0 {
        assert spool == old(spool)[sent..];
        return;
      }
      spool := recs[sent..];
    }

    /** Everything queued at the moment moves into the batch. */
    method DrainQueue()
      modifies this`queue, this`batch
      ensures queue == [] && batch == old(batch) + old(queue)
    {
      while queue != []
        invariant batch + queue == old(batch) + old(queue)
        decreases |queue|
      {
        batch := batch + [queue[0]];
        queue := queue[1..];
      }
    }

    /** The cases of the loop's select. */
    method OnRecord(healthy: nat, openOk: bool)
      requires o.Valid() && queue != []
      modifies this
      ensures View() == Received(o, old(View()), healthy, openOk)
      ensures queue == old(queue)[1..]
      ensures |old(batch)| + 1 < o.batchSize ==>
                View() == old(View()).(queue := old(queue)[1..], batch := old(batch) + [old(queue)[0]])
      ensures |old(batch)| + 1 >= o.batchSize ==>
                && batch == []
                && View() == SentOff(o, old(View()).(queue := old(queue)[1..]), old(batch) + [old(queue)[0]], healthy,
                                     openOk).(batch := [])
    {
      var r := queue[0];
      queue := queue[1..];
      batch := batch + [r];
      if |batch| >= o.batchSize {
        Send(batch, healthy, openOk);
        batch := [];
      }
    }

    method OnFlushTick(healthy: nat, openOk: bool)
      requires o.Valid()
      modifies this
      ensures View() == Flushed(o, old(View()), healthy, openOk)
      ensures old(batch) == [] ==> View() == old(View())
      ensures old(batch) != [] ==>
                View() == SentOff(o, old(View()), old(batch), healthy, openOk).(batch := [])
    {
      if |batch| > 0 {
        Send(batch, healthy, openOk);
        batch := [];
      }
    }

    /** Flush request and shutdown share this: drain the queue, send, then retry the spool. */
    method OnFlushRequest(healthy: nat, openOk: bool, healthyAfter: nat)
      requires o.Valid()
      modifies this
      ensures View() ==
              Drained(o, Flushed(o, old(View()).(queue := [], batch := old(batch) + old(queue)), healthy, openOk),
                      healthyAfter)
    {
      DrainQueue();
      OnFlushTick(healthy, openOk);
      DrainSpool(healthyAfter);
    }
  }
}
