/** No row is stranded: whatever rows compete with it and whatever else goes on, sweeps in order of due time reach a
    pending row, a crashed worker's included, after as many batches as there are rows due no later. */
module OutboxSweeps {
  import opened Common
  import opened Outbox
  import opened OutboxProtocol
  import opened OutboxLeases

  /** The pending rows due no later than this one, itself included. */
  function Ahead(t: Table, id: Id): set<Id>
    requires id in t
  {
    set j | j in t && t[j].status == Pending && t[j].next <= t[id].next
  }

  /** A sweep by the dispatcher's settings that meets no lock and sees the row due. */
  predicate Sweeps(cfg: Config, a: Action, due: int) {
    a.Claim? && a.limit == cfg.batch && a.locked == {} && a.reading >= due
  }

  /** A step that can put one more row ahead: an event recorded with a reading that old, or a pass finalised with so old
      a reading, or so large a base delay, that the row it retries is due again by then. */
  predicate CutsIn(cfg: Config, a: Action, due: int) {
    || (a.Record? && a.reading <= due)
    || (a.Finalise? && (a.reading + cfg.base <= due || cfg.base >= 0x8000_0000_0000))
  }

  function SweepCount(cfg: Config, acts: seq<Action>, due: int): nat {
    if acts == [] then 0
    else (if Sweeps(cfg, acts[0], due) then 1 else 0) + SweepCount(cfg, acts[1..], due)
  }

  function CutInCount(cfg: Config, acts: seq<Action>, due: int): nat {
    if acts == [] then 0
    else (if CutsIn(cfg, acts[0], due) then 1 else 0) + CutInCount(cfg, acts[1..], due)
  }

  /** A sweep takes the row, or a worker that still holds it from before finalises it. */
  predicate Takes(a: Action, id: Id) {
    (a.Claim? && id in a.ids) || (a.Finalise? && a.ticket.id == id)
  }

  predicate IsTaken(acts: seq<Action>, id: Id) {
    exists i :: 0 <= i < |acts| && Takes(acts[i], id)
  }

  /** A sweep that passes over a due row takes a whole batch of the rows ahead of it, and puts them behind it. */
  lemma PassedOver(cfg: Config, s: State, a: Action, id: Id)
    requires cfg.Valid() && Enabled(s, a) && id in s.rows && s.rows[id].status == Pending
    requires Sweeps(cfg, a, s.rows[id].next) && id !in a.ids
    ensures var rows' := Apply(cfg, s, a).rows;
            && id in rows' && rows'[id] == s.rows[id]
            && a.ids <= Ahead(s.rows, id) && |a.ids| == cfg.batch
            && Ahead(rows', id) == Ahead(s.rows, id) - a.ids
  {
    assert id in DueUnlocked(s.rows, a.reading, {});
    assert forall i :: i in a.ids ==> i in DueUnlocked(s.rows, a.reading, {});
    assert Apply(cfg, s, a).rows == Leased(s.rows, a.ids, a.reading + cfg.lease);
    hide Apply, Enabled, ClaimPick;
  }

  lemma SweepPassed(cfg: Config, s: State, a: Action, id: Id)
    requires cfg.Valid() && Enabled(s, a) && id in s.rows && s.rows[id].status == Pending
    requires Sweeps(cfg, a, s.rows[id].next) && id !in a.ids
    ensures var rows' := Apply(cfg, s, a).rows;
            id in rows' && rows'[id] == s.rows[id] && |Ahead(rows', id)| == |Ahead(s.rows, id)| - cfg.batch
  {
    PassedOver(cfg, s, a, id);
    hide Apply, Enabled, Ahead;
    FewerAhead(Ahead(s.rows, id), a.ids);
  }

  /** A claim only moves rows that were ahead, whatever it read and met. */
  lemma ClaimAhead(cfg: Config, s: State, a: Action, id: Id)
    requires cfg.Valid() && Enabled(s, a) && a.Claim? && id in s.rows && id !in a.ids
    ensures var rows' := Apply(cfg, s, a).rows;
            id in rows' && rows'[id] == s.rows[id] && Ahead(rows', id) <= Ahead(s.rows, id)
  {
    assert forall i :: i in a.ids ==> i in DueUnlocked(s.rows, a.reading, a.locked);
    assert Apply(cfg, s, a).rows == Leased(s.rows, a.ids, a.reading + cfg.lease);
    hide Apply, Enabled, ClaimPick;
  }

  lemma RecordAhead(cfg: Config, s: State, a: Action, id: Id)
    requires Enabled(s, a) && a.Record? && id in s.rows
    ensures var rows' := Apply(cfg, s, a).rows;
            && id in rows' && rows'[id] == s.rows[id]
            && Ahead(rows', id) <= Ahead(s.rows, id) + if CutsIn(cfg, a, s.rows[id].next) then {a.freshId} else {}
  {
    var row := ToOutbox(s.bodies[s.deliveries[a.delivery].msg].value, a.reading).value;
    assert Apply(cfg, s, a).rows == Enqueued(s.rows, a.freshId, row);
    hide Apply, Enabled, HasKey;
  }

  lemma FinaliseAhead(cfg: Config, s: State, a: Action, id: Id)
    requires cfg.Valid() && Enabled(s, a) && a.Finalise? && id in s.rows && a.ticket.id != id
    ensures var rows' := Apply(cfg, s, a).rows;
            && id in rows' && rows'[id] == s.rows[id]
            && Ahead(rows', id) <= Ahead(s.rows, id) + if CutsIn(cfg, a, s.rows[id].next) then {a.ticket.id} else {}
  {
    var v := VerdictOf(cfg, s.holds[a.ticket].attempts, EndedTransient(s.holds[a.ticket].phase));
    assert Apply(cfg, s, a).rows == Finalised(s.rows, cfg, a.ticket.id, v, a.reading);
    if v.Retry? && cfg.base < 0x8000_0000_0000 { BackoffIsExact(cfg.base, v.attempts); }
    hide Apply, Enabled, Backoff, EndedTransient;
  }

  /** Other steps leave the rows alone. */
  lemma RowsRest(cfg: Config, s: State, a: Action)
    requires Enabled(s, a) && !a.Claim? && !a.Record? && !a.Finalise?
    ensures Apply(cfg, s, a).rows == s.rows
  {
    match a {
      case Claim(_, _, _, _) =>
      case Record(_, _, _, _) =>
      case Finalise(_, _) =>
      case _ => assert Apply(cfg, s, a).rows == s.rows;
    }
  }

  /** Whatever step does not take the row leaves it be; a sweep has a batch fewer ahead of it, and only a step that cuts
      in has one more. */
  lemma StepAhead(cfg: Config, s: State, a: Action, id: Id)
    requires cfg.Valid() && Enabled(s, a) && id in s.rows && s.rows[id].status == Pending && !Takes(a, id)
    ensures var rows', due := Apply(cfg, s, a).rows, s.rows[id].next;
            && id in rows' && rows'[id] == s.rows[id]
            && |Ahead(rows', id)| <= |Ahead(s.rows, id)| + (if CutsIn(cfg, a, due) then 1 else 0)
                                     - if Sweeps(cfg, a, due) then cfg.batch else 0
  {
    hide Apply, Enabled, Ahead;
    var rows', ahead := Apply(cfg, s, a).rows, Ahead(s.rows, id);
    if Sweeps(cfg, a, s.rows[id].next) {
      SweepPassed(cfg, s, a, id);
    } else if a.Claim? {
      ClaimAhead(cfg, s, a, id);
      AtMostOneMore(Ahead(rows', id), ahead, {});
    } else if a.Record? {
      RecordAhead(cfg, s, a, id);
      AtMostOneMore(Ahead(rows', id), ahead, if CutsIn(cfg, a, s.rows[id].next) then {a.freshId} else {});
    } else if a.Finalise? {
      FinaliseAhead(cfg, s, a, id);
      AtMostOneMore(Ahead(rows', id), ahead, if CutsIn(cfg, a, s.rows[id].next) then {a.ticket.id} else {});
    } else {
      RowsRest(cfg, s, a);
    }
  }

  lemma AtMostOneMore(after: set<Id>, before: set<Id>, more: set<Id>)
    requires after <= before + more
    ensures |after| <= |before| + |more|
  {
    var rest := before + more - after;
    assert before + more == after + rest;
    assert before + more == before + (more - before);
    assert |more - before| <= |more| by { assert more == (more - before) + (more * before); }
  }

  lemma FewerAhead(ahead: set<Id>, ids: set<Id>)
    requires ids <= ahead
    ensures |ahead - ids| == |ahead| - |ids|
  {}

  lemma AheadOfItself(t: Table, id: Id)
    requires id in t && t[id].status == Pending
    ensures id in Ahead(t, id) && |Ahead(t, id)| > 0
  {}

  /** In every run, whatever other claims, passes, events and crashes come between and however the sweeps choose among
      equals: a pending row is taken by the time there are as many sweeps as there are batches of rows ahead of it,
      those that cut in included. */
  lemma {:induction false} SweepsReachTheRow(cfg: Config, s: State, acts: seq<Action>, end: State, id: Id)
    requires cfg.Valid() && Run(cfg, s, acts, end) && id in s.rows && s.rows[id].status == Pending
    requires var due := s.rows[id].next;
             SweepCount(cfg, acts, due) * cfg.batch >= |Ahead(s.rows, id)| + CutInCount(cfg, acts, due)
    ensures IsTaken(acts, id)
    decreases |acts|
  {
    hide Apply, Enabled, Ahead, Sweeps, CutsIn, IsTaken, Takes;
    AheadOfItself(s.rows, id);
    if acts != [] {
      var a, rest := acts[0], acts[1..];
      if Takes(a, id) {
        TakenNow(acts, id);
      } else {
        StepAhead(cfg, s, a, id);
        OneBatchLess(SweepCount(cfg, rest, s.rows[id].next), cfg.batch);
        SweepsReachTheRow(cfg, Apply(cfg, s, a), rest, end, id);
        TakenLater(acts, id);
      }
    }
  }

  lemma TakenNow(acts: seq<Action>, id: Id)
    requires acts != [] && Takes(acts[0], id)
    ensures IsTaken(acts, id)
  {}

  lemma TakenLater(acts: seq<Action>, id: Id)
    requires acts != [] && IsTaken(acts[1..], id)
    ensures IsTaken(acts, id)
  {
    var i :| 0 <= i < |acts[1..]| && Takes(acts[1..][i], id);
    assert acts[i + 1] == acts[1..][i];
  }

  lemma OneBatchLess(n: int, batch: nat)
    ensures (1 + n) * batch == n * batch + batch
  {}

  // ---- Such sweeps exist ----

  lemma {:induction false} EarliestOf(t: Table, ids: set<Id>) returns (m: Id)
    requires ids != {} && ids <= t.Keys
    ensures m in ids && forall i :: i in ids ==> t[m].next <= t[i].next
    decreases ids
  {
    m :| m in ids;
    if ids != {m} {
      var n := EarliestOf(t, ids - {m});
      if t[n].next < t[m].next { m := n; }
    }
  }

  lemma {:induction false} SomePick(t: Table, now: int, limit: nat) returns (ids: set<Id>)
    ensures ClaimPick(t, now, limit, {}, ids)
    decreases limit
  {
    ids := {};
    if limit > 0 {
      ids := SomePick(t, now, limit - 1);
      var rest := DueUnlocked(t, now, {}) - ids;
      if rest == {} {
        assert ids == DueUnlocked(t, now, {});
      } else if |ids| == limit - 1 {
        var m := EarliestOf(t, rest);
        ids := ids + {m};
      }
    }
  }

  /** Sweeps one after another at one clock reading, until the row is taken. */
  lemma {:induction false} SweepUntilTaken(cfg: Config, s: State, id: Id) returns (acts: seq<Action>, end: State)
    requires cfg.Valid() && id in s.rows && s.rows[id].status == Pending && s.rows[id].next <= s.now
    ensures Run(cfg, s, acts, end) && acts != []
    ensures forall a :: a in acts ==> Sweeps(cfg, a, s.rows[id].next)
    ensures (|acts| - 1) * cfg.batch < |Ahead(s.rows, id)|
    ensures end.sweeps > 0 && Live(cfg, end, Ticket(end.sweeps - 1, id))
    decreases |Ahead(s.rows, id)|
  {
    hide Apply, Enabled, Ahead, Live, Sweeps, Run;
    var a := SomeSweep(cfg, s);
    SweepKeepsTheClock(cfg, s, a);
    AheadOfItself(s.rows, id);
    if id in a.ids {
      acts, end := [a], Apply(cfg, s, a);
      NothingRuns(cfg, end);
      ConsRun(cfg, s, a, [], end);
      assert [a] + [] == acts;
      TakenIsLive(cfg, s, a, id);
    } else {
      SweepPassed(cfg, s, a, id);
      var rest;
      rest, end := SweepUntilTaken(cfg, Apply(cfg, s, a), id);
      acts := [a] + rest;
      ConsRun(cfg, s, a, rest, end);
      OneBatchLess(|rest| - 1, cfg.batch);
    }
  }

  lemma SomeSweep(cfg: Config, s: State) returns (a: Action)
    ensures Enabled(s, a) && a.Claim? && a.reading == s.now
    ensures forall due :: due <= s.now ==> Sweeps(cfg, a, due)
  {
    var ids := SomePick(s.rows, s.now, cfg.batch);
    a := Claim(s.now, cfg.batch, {}, ids);
  }

  lemma NothingRuns(cfg: Config, s: State)
    ensures Run(cfg, s, [], s)
  {}

  lemma ConsRun(cfg: Config, s: State, a: Action, rest: seq<Action>, end: State)
    requires Enabled(s, a) && Run(cfg, Apply(cfg, s, a), rest, end)
    ensures Run(cfg, s, [a] + rest, end)
  {
    hide Enabled, Apply;
    assert ([a] + rest)[1..] == rest;
  }

  lemma SweepKeepsTheClock(cfg: Config, s: State, a: Action)
    requires Enabled(s, a) && a.Claim?
    ensures Apply(cfg, s, a).now == s.now
  {}

  lemma TakenIsLive(cfg: Config, s: State, a: Action, id: Id)
    requires cfg.Valid() && Enabled(s, a) && a.Claim? && a.reading == s.now && id in a.ids
    ensures Live(cfg, Apply(cfg, s, a), Ticket(s.sweeps, id)) && Apply(cfg, s, a).sweeps == s.sweeps + 1
  {
    var k := Ticket(s.sweeps, id);
    assert k in Tickets(s.sweeps, a.ids);
  }

  /** A crashed or slow worker's row is not stuck: from any state, once the clock has reached its due time, unlocked
      sweeps lease it again, however many rows are due before it, in no more than one sweep per batch of them. */
  lemma AbandonedRowIsReclaimed(cfg: Config, s: State, id: Id) returns (acts: seq<Action>, end: State)
    requires cfg.Valid() && id in s.rows && s.rows[id].status == Pending
    ensures Run(cfg, s, acts, end) && |acts| >= 2 && acts[0].Advance?
    ensures forall i :: 1 <= i < |acts| ==> Sweeps(cfg, acts[i], s.rows[id].next)
    ensures |acts| - 1 <= |Ahead(s.rows, id)| / cfg.batch + 1
    ensures end.sweeps > 0 && Live(cfg, end, Ticket(end.sweeps - 1, id))
  {
    var later := Advance(if s.now < s.rows[id].next then s.rows[id].next else s.now);
    var s1 := Apply(cfg, s, later);
    assert s1.rows == s.rows;
    var sweeps;
    sweeps, end := SweepUntilTaken(cfg, s1, id);
    acts := [later] + sweeps;
    assert acts[1..] == sweeps;
    AtMostTheQuotient(|sweeps| - 1, cfg.batch, |Ahead(s.rows, id)|);
  }
}
