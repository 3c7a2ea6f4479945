/** Every run of the shipper: producers offer records at any moment, also between the receives of a drain, while the
    loop goroutine takes its steps. Delivery and spooling touch nothing a producer touches except the dropped counter,
    which is atomic, so a whole send counts as one step. */
module ShipperRuns {
  import opened Shipper

  datatype Loop = Idle | Draining(stopping: bool) | Stopped

  /** `offered` is every record there ever was, the ones an earlier process left in the spool included. */
  datatype World = World(s: State, loop: Loop, offered: seq<Record>, next: nat)

  datatype Action =
    | Offer(size: nat)
    | Receive(healthy: nat, openOk: bool)
    | FlushTick(healthy: nat, openOk: bool)
    | RetryTick(healthy: nat)
    | BeginDrain(stopping: bool)
    | DrainOne
    | EndDrain(healthy: nat, openOk: bool, healthyAfter: nat)

  predicate Enabled(w: World, a: Action) {
    match a
    case Offer(_) => true
    case Receive(_, _) => w.loop == Idle && w.s.queue != []
    case FlushTick(_, _) => w.loop == Idle
    case RetryTick(_) => w.loop == Idle
    case BeginDrain(_) => w.loop == Idle
    case DrainOne => w.loop.Draining? && w.s.queue != []
    case EndDrain(_, _, _) => w.loop.Draining? && w.s.queue == []
  }

  function Apply(o: Options, w: World, a: Action): World
    requires o.Valid() && Enabled(w, a)
  {
    match a
    case Offer(size) =>
      var r := Record(w.next, size);
      w.(s := Offered(o, w.s, r), offered := w.offered + [r], next := w.next + 1)
    case Receive(healthy, openOk) => w.(s := Received(o, w.s, healthy, openOk))
    case FlushTick(healthy, openOk) => w.(s := Flushed(o, w.s, healthy, openOk))
    case RetryTick(healthy) => w.(s := Drained(o, w.s, healthy))
    case BeginDrain(stopping) => w.(loop := Draining(stopping))
    case DrainOne => w.(s := w.s.(queue := w.s.queue[1..], batch := w.s.batch + [w.s.queue[0]]))
    case EndDrain(healthy, openOk, healthyAfter) =>
      w.(s := Drained(o, Flushed(o, w.s, healthy, openOk), healthyAfter),
         loop := if w.loop.stopping then Stopped else Idle)
  }

  predicate Run(o: Options, w: World, acts: seq<Action>, end: World)
    requires o.Valid()
    decreases |acts|
  {
    if acts == [] then end == w else Enabled(w, acts[0]) && Run(o, Apply(o, w, acts[0]), acts[1..], end)
  }

  ghost predicate Increasing(recs: seq<Record>) {
    forall i, j :: 0 <= i < j < |recs| ==> recs[i].n < recs[j].n
  }

  ghost predicate Below(recs: seq<Record>, n: nat) {
    forall i :: 0 <= i < |recs| ==> recs[i].n < n
  }

  /** A start over whatever spool an earlier process left. */
  ghost predicate Init(w: World) {
    && w.loop == Idle && w.s == State([], [], w.s.spool, 0, [], [], [])
    && w.offered == w.s.spool && Increasing(w.offered) && Below(w.offered, w.next)
  }

  // ---- Conservation ----

  function Held(s: State): multiset<Record> {
    multiset(Acknowledged(s.wire)) + multiset(s.spool) + multiset(s.batch) + multiset(s.queue)
    + multiset(s.evicted) + multiset(s.lost)
  }

  lemma SplitBag(recs: seq<Record>, k: nat)
    requires k <= |recs|
    ensures multiset(recs) == multiset(recs[..k]) + multiset(recs[k..])
  {
    assert recs == recs[..k] + recs[k..];
  }

  lemma CappedConserves(o: Options, s: State)
    ensures Held(Capped(o, s)) == Held(s)
  {
    var k := Overflow(s.spool, o.maxBytes);
    SplitBag(s.spool, k);
    assert multiset(s.evicted + s.spool[..k]) == multiset(s.evicted) + multiset(s.spool[..k]);
  }

  lemma AppendedConserves(o: Options, s: State, recs: seq<Record>, openOk: bool)
    ensures Held(Appended(o, s, recs, openOk)) == Held(s) + multiset(recs)
    ensures Appended(o, s, recs, openOk).dropped - s.dropped == |Appended(o, s, recs, openOk).lost| - |s.lost|
  {
    if recs != [] && openOk {
      CappedConserves(o, s.(spool := s.spool + recs));
      hide Capped, Overflow;
      assert multiset(s.spool + recs) == multiset(s.spool) + multiset(recs);
    }
  }

  lemma SentOffConserves(o: Options, s: State, recs: seq<Record>, healthy: nat, openOk: bool)
    requires o.Valid()
    ensures Held(SentOff(o, s, recs, healthy, openOk)) == Held(s) + multiset(recs)
    ensures SentOff(o, s, recs, healthy, openOk).dropped - s.dropped ==
            |SentOff(o, s, recs, healthy, openOk).lost| - |s.lost|
  {
    var k := Taken(recs, 0, o.batchSize, healthy);
    PostsDeliverAPrefix(recs, 0, o.batchSize, healthy);
    AcknowledgedConcat(s.wire, Posts(recs, 0, o.batchSize, healthy));
    AppendedConserves(o, s.(wire := s.wire + Posts(recs, 0, o.batchSize, healthy)), recs[k..], openOk);
    SplitBag(recs, k);
  }

  lemma FlushedConserves(o: Options, s: State, healthy: nat, openOk: bool)
    requires o.Valid()
    ensures Held(Flushed(o, s, healthy, openOk)) == Held(s)
    ensures Flushed(o, s, healthy, openOk).dropped - s.dropped == |Flushed(o, s, healthy, openOk).lost| - |s.lost|
  {
    if s.batch != [] {
      var empty := s.(batch := []);
      SentOffConserves(o, empty, s.batch, healthy, openOk);
      assert Flushed(o, s, healthy, openOk) == SentOff(o, empty, s.batch, healthy, openOk);
      hide SentOff, Flushed;
      assert Held(empty) + multiset(s.batch) == Held(s);
    }
  }

  lemma DrainedConserves(o: Options, s: State, healthy: nat)
    requires o.Valid()
    ensures Held(Drained(o, s, healthy)) == Held(s)
    ensures Drained(o, s, healthy).dropped == s.dropped && Drained(o, s, healthy).lost == s.lost
  {
    PostsDeliverAPrefix(s.spool, 0, o.batchSize, healthy);
    AcknowledgedConcat(s.wire, Posts(s.spool, 0, o.batchSize, healthy));
    SplitBag(s.spool, Taken(s.spool, 0, o.batchSize, healthy));
  }

  lemma MoveOneConserves(s: State)
    requires s.queue != []
    ensures Held(s.(queue := s.queue[1..], batch := s.batch + [s.queue[0]])) == Held(s)
  {
    SplitBag(s.queue, 1);
  }

  lemma OfferedConserves(o: Options, s: State, r: Record)
    ensures Held(Offered(o, s, r)) == Held(s) + multiset{r}
    ensures Offered(o, s, r).dropped - s.dropped == |Offered(o, s, r).lost| - |s.lost|
  {}

  lemma StepConserves(o: Options, w: World, a: Action)
    requires o.Valid() && Enabled(w, a) && Held(w.s) == multiset(w.offered) && w.s.dropped == |w.s.lost|
    ensures Held(Apply(o, w, a).s) == multiset(Apply(o, w, a).offered)
    ensures Apply(o, w, a).s.dropped == |Apply(o, w, a).s.lost|
  {
    hide Held, Offered, Flushed, Drained;
    match a {
      case Offer(size) => OfferedConserves(o, w.s, Record(w.next, size));
      case Receive(healthy, openOk) =>
        MoveOneConserves(w.s);
        FlushedConserves(o, w.s.(queue := w.s.queue[1..], batch := w.s.batch + [w.s.queue[0]]), healthy, openOk);
      case FlushTick(healthy, openOk) => FlushedConserves(o, w.s, healthy, openOk);
      case RetryTick(healthy) => DrainedConserves(o, w.s, healthy);
      case BeginDrain(_) =>
      case DrainOne => MoveOneConserves(w.s);
      case EndDrain(healthy, openOk, healthyAfter) =>
        FlushedConserves(o, w.s, healthy, openOk);
        DrainedConserves(o, Flushed(o, w.s, healthy, openOk), healthyAfter);
    }
  }

  // ---- Order ----

  /** What is still to be delivered, oldest first. */
  function Backlog(s: State): seq<Record> {
    s.spool + s.batch + s.queue
  }

  lemma CutKeepsOrder(a: seq<Record>, b: seq<Record>, c: seq<Record>, n: nat)
    requires Increasing(a + b + c) && Below(a + b + c, n)
    ensures Increasing(a + c) && Below(a + c, n)
  {
    var all := a + b + c;
    forall i | 0 <= i < |a + c|
      ensures (a + c)[i] == all[if i < |a| then i else i + |b|]
    {}
  }

  /** What spooling leaves to be delivered, next to what is queued: the records cut short at the front, or none of
      them. */
  lemma AppendedKeepsOrder(o: Options, s: State, left: seq<Record>, openOk: bool, n: nat)
    requires Increasing(s.spool + left + s.queue) && Below(s.spool + left + s.queue, n)
    ensures var spool := Appended(o, s, left, openOk).spool;
            Increasing(spool + s.queue) && Below(spool + s.queue, n)
  {
    if left == [] {
      assert s.spool + left + s.queue == s.spool + s.queue;
    } else if !openOk {
      CutKeepsOrder(s.spool, left, s.queue, n);
    } else {
      var kept := s.spool + left;
      var k := Overflow(kept, o.maxBytes);
      assert Appended(o, s, left, openOk).spool == kept[k..];
      hide Overflow, Appended, Increasing, Below;
      assert [] + kept[..k] + (kept[k..] + s.queue) == s.spool + left + s.queue;
      CutKeepsOrder([], kept[..k], kept[k..] + s.queue, n);
      assert [] + (kept[k..] + s.queue) == kept[k..] + s.queue;
    }
  }

  lemma FlushedKeepsOrder(o: Options, s: State, healthy: nat, openOk: bool, n: nat)
    requires o.Valid() && Increasing(Backlog(s)) && Below(Backlog(s), n)
    ensures Increasing(Backlog(Flushed(o, s, healthy, openOk))) && Below(Backlog(Flushed(o, s, healthy, openOk)), n)
  {
    if s.batch != [] {
      var t := Taken(s.batch, 0, o.batchSize, healthy);
      var left := s.batch[t..];
      var s1 := s.(wire := s.wire + Posts(s.batch, 0, o.batchSize, healthy));
      var s' := Flushed(o, s, healthy, openOk);
      FlushedIsAppended(o, s, healthy, openOk);
      hide Flushed, Appended, Posts, Taken, Increasing, Below;
      assert Backlog(s) == s.spool + s.batch[..t] + (left + s.queue);
      CutKeepsOrder(s.spool, s.batch[..t], left + s.queue, n);
      assert s.spool + (left + s.queue) == s1.spool + left + s1.queue;
      AppendedKeepsOrder(o, s1, left, openOk, n);
      assert Backlog(s') == s'.spool + s1.queue;
    }
  }

  lemma FlushedIsAppended(o: Options, s: State, healthy: nat, openOk: bool)
    requires o.Valid() && s.batch != []
    ensures var s' := Flushed(o, s, healthy, openOk);
            var s1 := s.(wire := s.wire + Posts(s.batch, 0, o.batchSize, healthy));
            && s'.spool == Appended(o, s1, s.batch[Taken(s.batch, 0, o.batchSize, healthy)..], openOk).spool
            && s'.batch == [] && s'.queue == s.queue
  {
    hide Posts, Taken, Overflow;
  }

  lemma DrainedKeepsOrder(o: Options, s: State, healthy: nat, n: nat)
    requires o.Valid() && Increasing(Backlog(s)) && Below(Backlog(s), n)
    ensures Increasing(Backlog(Drained(o, s, healthy))) && Below(Backlog(Drained(o, s, healthy)), n)
  {
    var k := Taken(s.spool, 0, o.batchSize, healthy);
    var rest := s.spool[k..] + s.batch + s.queue;
    assert [] + s.spool[..k] + rest == Backlog(s);
    CutKeepsOrder([], s.spool[..k], rest, n);
    assert Backlog(Drained(o, s, healthy)) == [] + rest;
  }

  lemma OfferedKeepsOrder(o: Options, s: State, r: Record)
    requires Increasing(Backlog(s)) && Below(Backlog(s), r.n)
    ensures Increasing(Backlog(Offered(o, s, r))) && Below(Backlog(Offered(o, s, r)), r.n + 1)
  {
    assert s.spool + s.batch + (s.queue + [r]) == Backlog(s) + [r];
  }

  lemma StepKeepsOrder(o: Options, w: World, a: Action)
    requires o.Valid() && Enabled(w, a) && Increasing(Backlog(w.s)) && Below(Backlog(w.s), w.next)
    ensures Increasing(Backlog(Apply(o, w, a).s)) && Below(Backlog(Apply(o, w, a).s), Apply(o, w, a).next)
  {
    match a {
      case Offer(size) => OfferedKeepsOrder(o, w.s, Record(w.next, size));
      case Receive(healthy, openOk) =>
        var s1 := w.s.(queue := w.s.queue[1..], batch := w.s.batch + [w.s.queue[0]]);
        assert Backlog(s1) == Backlog(w.s);
        FlushedKeepsOrder(o, s1, healthy, openOk, w.next);
      case FlushTick(healthy, openOk) => FlushedKeepsOrder(o, w.s, healthy, openOk, w.next);
      case RetryTick(healthy) => DrainedKeepsOrder(o, w.s, healthy, w.next);
      case BeginDrain(_) =>
      case DrainOne => assert Backlog(Apply(o, w, a).s) == Backlog(w.s);
      case EndDrain(healthy, openOk, healthyAfter) =>
        FlushedKeepsOrder(o, w.s, healthy, openOk, w.next);
        DrainedKeepsOrder(o, Flushed(o, w.s, healthy, openOk), healthyAfter, w.next);
    }
  }

  // ---- Bounds ----

  predicate PostsInBounds(o: Options, wire: seq<Post>) {
    forall i :: 0 <= i < |wire| ==> 1 <= |wire[i].records| <= o.batchSize
  }

  predicate Bounded(o: Options, w: World) {
    && |w.s.queue| <= o.queueSize
    && (!w.loop.Draining? ==> |w.s.batch| < o.batchSize)
    && Bytes(w.s.spool) <= o.maxBytes
    && PostsInBounds(o, w.s.wire)
  }

  lemma FlushedIsBounded(o: Options, s: State, healthy: nat, openOk: bool)
    requires o.Valid() && Bytes(s.spool) <= o.maxBytes && PostsInBounds(o, s.wire)
    ensures var s' := Flushed(o, s, healthy, openOk);
            Bytes(s'.spool) <= o.maxBytes && PostsInBounds(o, s'.wire) && s'.batch == [] && s'.queue == s.queue
  {
    PostsHaveShape(s.batch, 0, o.batchSize, healthy);
    OverflowIsLeast(s.spool + s.batch[Taken(s.batch, 0, o.batchSize, healthy)..], o.maxBytes);
  }

  lemma DrainedIsBounded(o: Options, s: State, healthy: nat)
    requires o.Valid() && Bytes(s.spool) <= o.maxBytes && PostsInBounds(o, s.wire)
    ensures Bytes(Drained(o, s, healthy).spool) <= o.maxBytes && PostsInBounds(o, Drained(o, s, healthy).wire)
  {
    PostsHaveShape(s.spool, 0, o.batchSize, healthy);
    BytesOfSuffixes(s.spool, 0, Taken(s.spool, 0, o.batchSize, healthy));
    assert s.spool[0..] == s.spool;
  }

  lemma StepIsBounded(o: Options, w: World, a: Action)
    requires o.Valid() && Enabled(w, a) && Bounded(o, w)
    ensures Bounded(o, Apply(o, w, a))
  {
    match a {
      case Offer(_) =>
      case Receive(healthy, openOk) =>
        FlushedIsBounded(o, w.s.(queue := w.s.queue[1..], batch := w.s.batch + [w.s.queue[0]]), healthy, openOk);
      case FlushTick(healthy, openOk) => FlushedIsBounded(o, w.s, healthy, openOk);
      case RetryTick(healthy) => DrainedIsBounded(o, w.s, healthy);
      case BeginDrain(_) =>
      case DrainOne =>
      case EndDrain(healthy, openOk, healthyAfter) =>
        FlushedIsBounded(o, w.s, healthy, openOk);
        DrainedIsBounded(o, Flushed(o, w.s, healthy, openOk), healthyAfter);
    }
  }

  // ---- Whole runs ----

  ghost predicate Inv(o: Options, w: World) {
    && Held(w.s) == multiset(w.offered) && w.s.dropped == |w.s.lost|
    && Increasing(Backlog(w.s)) && Below(Backlog(w.s), w.next)
    && Increasing(w.offered) && Below(w.offered, w.next)
  }

  lemma {:induction false} InvRun(o: Options, w: World, acts: seq<Action>, end: World)
    requires o.Valid() && Run(o, w, acts, end) && Inv(o, w)
    ensures Inv(o, end) && (Bounded(o, w) ==> Bounded(o, end))
    decreases |acts|
  {
    hide Held, Bounded, Backlog;
    if acts != [] {
      StepConserves(o, w, acts[0]);
      StepKeepsOrder(o, w, acts[0]);
      if Bounded(o, w) { StepIsBounded(o, w, acts[0]); }
      InvRun(o, Apply(o, w, acts[0]), acts[1..], end);
    }
  }

  lemma {:induction false} IncreasingMeansOnce(recs: seq<Record>, r: Record)
    requires Increasing(recs)
    ensures multiset(recs)[r] == if r in recs then 1 else 0
  {
    if recs != [] {
      var last := |recs| - 1;
      IncreasingMeansOnce(recs[..last], r);
      assert recs == recs[..last] + [recs[last]];
    }
  }

  /** In every run each offered record is in exactly one place, nothing else is in any, the dropped counter is exact,
      and what waits for delivery is in the order it was offered. */
  lemma EveryRecordIsInOnePlace(o: Options, w: World, acts: seq<Action>, end: World, r: Record)
    requires o.Valid() && Init(w) && Run(o, w, acts, end)
    ensures multiset(Acknowledged(end.s.wire))[r] + multiset(end.s.spool)[r] + multiset(end.s.batch)[r]
          + multiset(end.s.queue)[r] + multiset(end.s.evicted)[r] + multiset(end.s.lost)[r]
         == if r in end.offered then 1 else 0
    ensures end.s.dropped == |end.s.lost|
    ensures Increasing(end.s.spool + end.s.batch + end.s.queue)
  {
    InitIsInv(o, w);
    hide Run, Init;
    InvRun(o, w, acts, end);
    IncreasingMeansOnce(end.offered, r);
    assert Held(end.s)[r] == multiset(end.offered)[r];
  }

  /** Started with a spool under its cap, every run keeps queue, batch, spool and POSTs within the configured sizes. */
  lemma RunsStayBounded(o: Options, w: World, acts: seq<Action>, end: World)
    requires o.Valid() && Init(w) && Bytes(w.s.spool) <= o.maxBytes && Run(o, w, acts, end)
    ensures Bounded(o, end)
  {
    InitIsInv(o, w);
    assert Bounded(o, w);
    hide Run, Inv, Init, Bounded;
    InvRun(o, w, acts, end);
  }

  lemma InitIsInv(o: Options, w: World)
    requires Init(w)
    ensures Inv(o, w)
  {
    var spool := w.s.spool;
    assert Backlog(w.s) == spool;
    assert multiset(Acknowledged([])) == multiset{};
  }

  /** A flush or shutdown that meets a healthy server leaves nothing behind of what was offered before its drain
      ended. */
  lemma HealthyFlushLeavesNothing(o: Options, w: World, a: Action)
    requires o.Valid() && Enabled(w, a) && a.EndDrain? && a.healthy >= |w.s.batch| && a.healthyAfter >= |w.s.spool|
    ensures Backlog(Apply(o, w, a).s) == []
    ensures Acknowledged(Apply(o, w, a).s.wire) == Acknowledged(w.s.wire) + w.s.batch + w.s.spool
  {
    FlushDeliversBatch(o, w.s, a.healthy, a.openOk);
    var s := Flushed(o, w.s, a.healthy, a.openOk);
    EnoughHealthTakesAll(s.spool, 0, o.batchSize, a.healthyAfter);
    PostsDeliverAPrefix(s.spool, 0, o.batchSize, a.healthyAfter);
    AcknowledgedConcat(s.wire, Posts(s.spool, 0, o.batchSize, a.healthyAfter));
    assert s.spool[..|s.spool|] == s.spool;
    hide Flushed, Posts, Taken, Acknowledged;
  }

  lemma FlushDeliversBatch(o: Options, s: State, healthy: nat, openOk: bool)
    requires o.Valid() && healthy >= |s.batch|
    ensures var s' := Flushed(o, s, healthy, openOk);
            && s'.batch == [] && s'.spool == s.spool && s'.queue == s.queue
            && Acknowledged(s'.wire) == Acknowledged(s.wire) + s.batch
  {
    EnoughHealthTakesAll(s.batch, 0, o.batchSize, healthy);
    PostsDeliverAPrefix(s.batch, 0, o.batchSize, healthy);
    AcknowledgedConcat(s.wire, Posts(s.batch, 0, o.batchSize, healthy));
    assert s.batch[..|s.batch|] == s.batch;
    hide Posts, Taken, Acknowledged;
  }

  // ---- Loss ----

  /** The server refuses part of the batch and the spool file cannot be opened. */
  predicate CannotPlace(o: Options, batch: nat, healthy: nat, openOk: bool) {
    !openOk && healthy * o.batchSize < batch
  }

  /** The steps that drop a record: an offer to a full queue, or a send that can place part of its batch nowhere. */
  predicate Drops(o: Options, w: World, a: Action) {
    match a
    case Offer(_) => |w.s.queue| >= o.queueSize
    case Receive(healthy, openOk) =>
      |w.s.batch| + 1 >= o.batchSize && CannotPlace(o, |w.s.batch| + 1, healthy, openOk)
    case FlushTick(healthy, openOk) => CannotPlace(o, |w.s.batch|, healthy, openOk)
    case EndDrain(healthy, openOk, _) => CannotPlace(o, |w.s.batch|, healthy, openOk)
    case _ => false
  }

  /** Nothing is dropped otherwise. */
  lemma DropsIff(o: Options, w: World, a: Action)
    requires o.Valid() && Enabled(w, a)
    ensures w.s.lost <= Apply(o, w, a).s.lost
    ensures w.s.lost < Apply(o, w, a).s.lost <==> Drops(o, w, a)
  {
    hide SentOff, Drained;
    match a {
      case Receive(healthy, openOk) =>
        var s1 := w.s.(queue := w.s.queue[1..], batch := w.s.batch + [w.s.queue[0]]);
        SentOffMeans(o, s1, s1.batch, healthy, openOk);
      case FlushTick(healthy, openOk) => SentOffMeans(o, w.s, w.s.batch, healthy, openOk);
      case EndDrain(healthy, openOk, healthyAfter) =>
        SentOffMeans(o, w.s, w.s.batch, healthy, openOk);
        DrainedMeans(o, Flushed(o, w.s, healthy, openOk), healthyAfter);
      case RetryTick(healthy) => DrainedMeans(o, w.s, healthy);
      case _ =>
    }
  }
}
