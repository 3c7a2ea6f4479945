/** Without the lease assumption: the one step that undoes a sent row, and a run that takes it. */
module OutboxLateFinalise {
  import opened Common
  import opened Outbox
  import opened OutboxProtocol
  import opened OutboxLeases

  lemma {:induction false} RunsCompose(cfg: Config, s: State, xs: seq<Action>, mid: State, ys: seq<Action>, end: State)
    requires Run(cfg, s, xs, mid) && Run(cfg, mid, ys, end)
    ensures Run(cfg, s, xs + ys, end)
    decreases |xs|
  {
    hide Enabled, Apply;
    if xs == [] {
      assert xs + ys == ys;
    } else {
      assert (xs + ys)[0] == xs[0];
      assert (xs + ys)[1..] == xs[1..] + ys;
      RunsCompose(cfg, Apply(cfg, s, xs[0]), xs[1..], mid, ys, end);
    }
  }

  lemma StepThenRun(cfg: Config, s: State, a: Action, s': State, acts: seq<Action>, end: State)
    requires Enabled(s, a) && s' == Apply(cfg, s, a) && Run(cfg, s', acts, end)
    ensures Run(cfg, s, [a] + acts, end)
  {
    hide Enabled, Apply;
    assert ([a] + acts)[1..] == acts;
  }

  const LATE_EVENT := IdeasReady("request", "user", 1)

  function LateRow(status: Status, next: int, sentAt: Option<int>): Row {
    Row("user", IdeasReadyKind, IdeasPayload("request", 1), Key(LATE_EVENT), status, 0, next, 0, sentAt)
  }

  /** A recorded event, and what has happened to its row since. */
  function LateState(id: Id, now: int, row: Row, holds: map<Ticket, Hold>, sweeps: nat, log: seq<Entry>): State {
    State(now, map[0 := Some(LATE_EVENT)], {0}, map[0 := Delivery(0, Recorded)],
          map[id := row], map[], holds, sweeps, log)
  }

  lemma EventRecorded(cfg: Config, id: Id) returns (acts: seq<Action>)
    ensures Run(cfg, Init(0), acts, LateState(id, 0, LateRow(Pending, 0, None), map[], 0, []))
  {
    var publish, deliver, record := Publish(0, Some(LATE_EVENT)), Deliver(0, 0), Record(0, id, 0, false);
    var s1 := Init(0).(bodies := map[0 := Some(LATE_EVENT)], unacked := {0});
    var s2 := s1.(deliveries := map[0 := Delivery(0, Handling)]);
    var s3 := LateState(id, 0, LateRow(Pending, 0, None), map[], 0, []);
    assert Apply(cfg, s2, record) == s3;
    StepThenRun(cfg, s2, record, s3, [], s3);
    StepThenRun(cfg, s1, deliver, s2, [record] + [], s3);
    StepThenRun(cfg, Init(0), publish, s1, [deliver] + ([record] + []), s3);
    acts := [publish] + ([deliver] + ([record] + []));
  }

  lemma ClaimLateRow(cfg: Config, id: Id, now: int, holds: map<Ticket, Hold>, sweeps: nat, log: seq<Entry>)
    requires cfg.Valid()
    ensures var s := LateState(id, now, LateRow(Pending, now, None), holds, sweeps, log);
            && Enabled(s, Claim(now, cfg.batch, {}, {id}))
            && Apply(cfg, s, Claim(now, cfg.batch, {}, {id})) ==
               LateState(id, now, LateRow(Pending, now + cfg.lease, None),
                         holds[Ticket(sweeps, id) := Hold(0, "user", now, Claimed)], sweeps + 1,
                         log + [ClaimedAt(sweeps, {id}, now)])
  {
    var row := LateRow(Pending, now, None);
    assert row.status == Pending && row.next == now && row.attempts == 0 && row.user == "user";
    assert row.(next := now + cfg.lease) == LateRow(Pending, now + cfg.lease, None);
    hide LateRow, Key;
    OneRowClaimed(id, row, now, cfg.lease, sweeps, holds);
    OneRowPicked(id, row, now, cfg.batch);
    hide Tickets, NewHolds, Leased, ClaimPick;
    var s := LateState(id, now, row, holds, sweeps, log);
    assert Enabled(s, Claim(now, cfg.batch, {}, {id}));
    ClaimApplied(cfg, s, Claim(now, cfg.batch, {}, {id}));
    hide Enabled, Apply;
  }

  lemma ClaimApplied(cfg: Config, s: State, a: Action)
    requires a.Claim? && Enabled(s, a) && a.ids <= s.rows.Keys
    ensures Apply(cfg, s, a) ==
            s.(rows := Leased(s.rows, a.ids, a.reading + cfg.lease),
               holds := s.holds + NewHolds(s.rows, s.sweeps, a.ids, a.reading),
               sweeps := s.sweeps + 1,
               log := s.log + [ClaimedAt(s.sweeps, a.ids, a.reading)])
  {
    hide ClaimPick, Leased, NewHolds, Tickets, Finalised, VerdictOf, Enqueued, Upserted, Deactivated, ToOutbox;
  }

  lemma OneRowClaimed(id: Id, row: Row, now: int, lease: int, sweeps: nat, holds: map<Ticket, Hold>)
    ensures Leased(map[id := row], {id}, now + lease) == map[id := row.(next := now + lease)]
    ensures holds + NewHolds(map[id := row], sweeps, {id}, now)
         == holds[Ticket(sweeps, id) := Hold(row.attempts, row.user, now, Claimed)]
  {
    var k := Ticket(sweeps, id);
    assert Tickets(sweeps, {id}) == {k};
    assert NewHolds(map[id := row], sweeps, {id}, now) == map[k := Hold(row.attempts, row.user, now, Claimed)];
  }

  lemma OneRowPicked(id: Id, row: Row, now: int, limit: nat)
    requires row.status == Pending && row.next <= now && limit >= 1
    ensures ClaimPick(map[id := row], now, limit, {}, {id})
  {
    assert DueUnlocked(map[id := row], now, {}) == {id};
  }

  lemma FirstWorkerStalls(cfg: Config, id: Id) returns (acts: seq<Action>, log: seq<Entry>)
    requires cfg.Valid()
    ensures Run(cfg, LateState(id, 0, LateRow(Pending, 0, None), map[], 0, []), acts,
                LateState(id, cfg.lease, LateRow(Pending, cfg.lease, None),
                          map[Ticket(0, id) := Hold(0, "user", 0, Unresolved)], 1, log))
  {
    hide Enabled, Apply, Key;
    var k := Ticket(0, id);
    var claim, fail, wait := Claim(0, cfg.batch, {}, {id}), FailToResolve(k), Advance(cfg.lease);
    var s3 := LateState(id, 0, LateRow(Pending, 0, None), map[], 0, []);
    ClaimLateRow(cfg, id, 0, map[], 0, []);
    var s4 := Apply(cfg, s3, claim);
    HeldSteps(cfg, s4, k);
    var s5 := WithPhase(s4, k, Unresolved, ResolveFailed(k));
    log := s5.log;
    var s6 := s5.(now := cfg.lease);
    Waiting(cfg, s5, cfg.lease);
    assert s6 == LateState(id, cfg.lease, LateRow(Pending, cfg.lease, None),
                            map[k := Hold(0, "user", 0, Unresolved)], 1, log);
    assert Run(cfg, s6, [], s6);
    hide Run;
    StepThenRun(cfg, s5, wait, s6, [], s6);
    StepThenRun(cfg, s4, fail, s5, [wait] + [], s6);
    StepThenRun(cfg, s3, claim, s4, [fail] + ([wait] + []), s6);
    acts := [claim] + ([fail] + ([wait] + []));
  }

  lemma Waiting(cfg: Config, s: State, to: int)
    requires s.now <= to
    ensures Enabled(s, Advance(to)) && Apply(cfg, s, Advance(to)) == s.(now := to)
  {}

  lemma HeldSteps(cfg: Config, s: State, k: Ticket)
    requires k in s.holds && s.holds[k].phase == Claimed
    ensures Enabled(s, FailToResolve(k))
    ensures Apply(cfg, s, FailToResolve(k)) == WithPhase(s, k, Unresolved, ResolveFailed(k))
    ensures s.devices == map[] ==> Enabled(s, Resolve(k, []))
    ensures s.devices == map[] ==>
              Apply(cfg, s, Resolve(k, [])) == WithPhase(s, k, Pushing(map[], [], []), ResolvedTo(k, map[]))
  {}

  lemma FinaliseEmptyPass(cfg: Config, s: State, k: Ticket)
    requires k in s.holds && k.id in s.rows && s.holds[k].at == s.now && s.holds[k].phase == Pushing(map[], [], [])
    ensures Enabled(s, Finalise(k, s.now))
    ensures Apply(cfg, s, Finalise(k, s.now)) ==
            s.(rows := s.rows[k.id := s.rows[k.id].(status := Sent, sentAt := Some(s.now))],
               holds := s.holds - {k}, log := s.log + [SentAt(k, s.now)])
  {}

  lemma SecondWorkerSends(cfg: Config, id: Id, log: seq<Entry>) returns (acts: seq<Action>, log': seq<Entry>)
    requires cfg.Valid()
    ensures Run(cfg, LateState(id, cfg.lease, LateRow(Pending, cfg.lease, None),
                               map[Ticket(0, id) := Hold(0, "user", 0, Unresolved)], 1, log), acts,
                LateState(id, cfg.lease, LateRow(Sent, cfg.lease + cfg.lease, Some(cfg.lease)),
                          map[Ticket(0, id) := Hold(0, "user", 0, Unresolved)], 2, log'))
  {
    hide Enabled, Apply, Key;
    var late, k := map[Ticket(0, id) := Hold(0, "user", 0, Unresolved)], Ticket(1, id);
    var claim, resolve, send := Claim(cfg.lease, cfg.batch, {}, {id}), Resolve(k, []), Finalise(k, cfg.lease);
    var s6 := LateState(id, cfg.lease, LateRow(Pending, cfg.lease, None), late, 1, log);
    ClaimLateRow(cfg, id, cfg.lease, late, 1, log);
    var s7 := Apply(cfg, s6, claim);
    HeldSteps(cfg, s7, k);
    var s8 := WithPhase(s7, k, Pushing(map[], [], []), ResolvedTo(k, map[]));
    log' := s8.log + [SentAt(k, cfg.lease)];
    var s9 := LateState(id, cfg.lease, LateRow(Sent, cfg.lease + cfg.lease, Some(cfg.lease)), late, 2, log');
    FinaliseEmptyPass(cfg, s8, k);
    assert s8.holds - {k} == late;
    assert Apply(cfg, s8, send) == s9;
    assert Run(cfg, s9, [], s9);
    hide Run, LateRow;
    StepThenRun(cfg, s8, send, s9, [], s9);
    StepThenRun(cfg, s7, resolve, s8, [send] + [], s9);
    StepThenRun(cfg, s6, claim, s7, [resolve] + ([send] + []), s9);
    acts := [claim] + ([resolve] + ([send] + []));
  }

  /** Which step moves a sent row, in any state at all: a pass of that row that ended transient. The finalising
      statements do not look at the status. */
  lemma SentIsUndoneExactlyByATransientPass(cfg: Config, s: State, a: Action, id: Id)
    requires Enabled(s, a) && id in s.rows && s.rows[id].status == Sent
    ensures id in Apply(cfg, s, a).rows
    ensures Apply(cfg, s, a).rows[id].status != Sent <==>
            a.Finalise? && a.ticket.id == id && EndedTransient(s.holds[a.ticket].phase)
  {
    match a {
      case Record(_, _, _, _) =>
      case Claim(_, _, _, _) =>
      case Finalise(_, _) =>
      case _ => assert Apply(cfg, s, a).rows == s.rows;
    }
  }

  /** And which step moves a failed one: a pass of that row that was delivered or has attempts left. */
  lemma FailedIsUndoneExactlyByAnotherVerdict(cfg: Config, s: State, a: Action, id: Id)
    requires Enabled(s, a) && id in s.rows && s.rows[id].status == Failed
    ensures id in Apply(cfg, s, a).rows
    ensures Apply(cfg, s, a).rows[id].status != Failed <==>
            a.Finalise? && a.ticket.id == id
            && VerdictOf(cfg, s.holds[a.ticket].attempts, EndedTransient(s.holds[a.ticket].phase)) != MarkFailed
  {
    match a {
      case Record(_, _, _, _) =>
      case Claim(_, _, _, _) =>
      case Finalise(_, _) =>
      case _ => assert Apply(cfg, s, a).rows == s.rows;
    }
  }

  /** After a timely run only a worker that outlived its lease can change a sent or failed row in any way: the step is a
      finalise of that row, too late. */
  lemma FinalRowsChangeOnlyLate(cfg: Config, start: int, acts: seq<Action>, s: State, a: Action, id: Id)
    requires cfg.Valid() && TimelyRun(cfg, Init(start), acts, s) && Enabled(s, a)
    requires id in s.rows && s.rows[id].status != Pending
    ensures id in Apply(cfg, s, a).rows
    ensures Apply(cfg, s, a).rows[id] != s.rows[id] ==> a.Finalise? && a.ticket.id == id && !Timely(cfg, s, a)
  {
    LeaseRun(cfg, Init(start), acts, s);
    if Timely(cfg, s, a) {
      TerminalRowsStay(cfg, s, a, id);
    } else {
      FinalisingTouchesOne(cfg, s, a, id);
    }
  }

  lemma FinalisingTouchesOne(cfg: Config, s: State, a: Action, id: Id)
    requires Enabled(s, a) && a.Finalise? && id in s.rows
    ensures id in Apply(cfg, s, a).rows
    ensures id != a.ticket.id ==> Apply(cfg, s, a).rows[id] == s.rows[id]
  {
  }

  /** And such a step can come: under every configuration some run lets a worker that outlived its lease take a sent
      row back. */
  lemma LateFinaliseUndoesSent(cfg: Config)
    requires cfg.Valid()
    ensures exists acts, s, k, id ::
              && Run(cfg, Init(0), acts, s) && id in s.rows && s.rows[id].status == Sent
              && Enabled(s, Finalise(k, s.now)) && !Timely(cfg, s, Finalise(k, s.now))
              && Apply(cfg, s, Finalise(k, s.now)).rows[id].status != Sent
  {
    var id, k := "row", Ticket(0, "row");
    var xs := EventRecorded(cfg, id);
    var ys, log := FirstWorkerStalls(cfg, id);
    var zs, log' := SecondWorkerSends(cfg, id, log);
    var late := map[k := Hold(0, "user", 0, Unresolved)];
    var s3 := LateState(id, 0, LateRow(Pending, 0, None), map[], 0, []);
    var s6 := LateState(id, cfg.lease, LateRow(Pending, cfg.lease, None), late, 1, log);
    var s := LateState(id, cfg.lease, LateRow(Sent, cfg.lease + cfg.lease, Some(cfg.lease)), late, 2, log');
    LateStep(cfg, s, k);
    hide Enabled, Apply, Run;
    RunsCompose(cfg, s3, ys, s6, zs, s);
    RunsCompose(cfg, Init(0), xs, s3, ys + zs, s);
  }

  lemma LateStep(cfg: Config, s: State, k: Ticket)
    requires cfg.Valid() && k in s.holds && s.holds[k].phase == Unresolved && s.holds[k].at + cfg.lease <= s.now
    requires k.id in s.rows && s.rows[k.id].status == Sent
    ensures Enabled(s, Finalise(k, s.now)) && !Timely(cfg, s, Finalise(k, s.now))
    ensures k.id in Apply(cfg, s, Finalise(k, s.now)).rows
    ensures Apply(cfg, s, Finalise(k, s.now)).rows[k.id].status != Sent
  {
    SentIsUndoneExactlyByATransientPass(cfg, s, Finalise(k, s.now), k.id);
  }
}
