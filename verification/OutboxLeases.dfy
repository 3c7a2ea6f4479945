/** What the lease gives the dispatchers: spacing of claims in every run; and, when each worker finalises or
    stops before its lease ends, one worker per row and final rows that stay final. */
module OutboxLeases {
  import opened Outbox
  import opened OutboxProtocol

  // ---- Every run: claims of one row are a lease apart ----

  predicate IsClaimOf(e: Entry, id: Id) {
    e.ClaimedAt? && id in e.ids
  }

  predicate RetriedBetween(log: seq<Entry>, i: int, j: int, id: Id) {
    exists k :: i < k < j && 0 <= k < |log| && log[k].RetriedAt? && log[k].ticket.id == id
  }

  ghost predicate ClaimsSpaced(log: seq<Entry>, lease: int) {
    forall i, j, id {:trigger IsClaimOf(log[i], id), IsClaimOf(log[j], id)} ::
      0 <= i < j < |log| && IsClaimOf(log[i], id) && IsClaimOf(log[j], id) && !RetriedBetween(log, i, j, id) ==>
        log[i].at + lease <= log[j].at
  }

  ghost predicate LeasesStand(s: State, lease: int) {
    forall i, id {:trigger IsClaimOf(s.log[i], id)} ::
      0 <= i < |s.log| && IsClaimOf(s.log[i], id) && !RetriedBetween(s.log, i, |s.log|, id) ==>
        id in s.rows && s.log[i].at + lease <= s.rows[id].next
  }

  /** All a step can do to due times, read off the entry it logs. */
  ghost predicate NextMoves(s: State, s': State, lease: int) {
    if s'.log == s.log then forall id :: id in s.rows ==> id in s'.rows && s'.rows[id].next == s.rows[id].next
    else
      && |s'.log| == |s.log| + 1 && s'.log[..|s.log|] == s.log
      && var e := s'.log[|s.log|];
         && (forall id :: IsClaimOf(e, id) ==> id in s.rows)
         && forall id :: id in s.rows ==>
              && id in s'.rows
              && (IsClaimOf(e, id) ==> s.rows[id].next <= e.at && s'.rows[id].next == e.at + lease)
              && (!IsClaimOf(e, id) && !(e.RetriedAt? && e.ticket.id == id) ==> s'.rows[id].next == s.rows[id].next)
  }

  lemma StepMovesNext(cfg: Config, s: State, a: Action)
    requires Enabled(s, a)
    ensures NextMoves(s, Apply(cfg, s, a), cfg.lease)
  {
    var s' := Apply(cfg, s, a);
    match a {
      case Claim(_, _, _, _) =>
      case Resolve(_, _) =>
      case FailToResolve(_) =>
      case Push(_, _) =>
      case Finalise(_, _) =>
      case _ => assert s'.log == s.log;
    }
  }

  lemma RetriedBetweenPrefix(s: State, s': State, i: nat, j: nat, id: Id)
    requires i < j <= |s.log| <= |s'.log| && s'.log[..|s.log|] == s.log
    ensures RetriedBetween(s.log, i, j, id) ==> RetriedBetween(s'.log, i, j, id)
    ensures RetriedBetween(s.log, i, j, id) ==> RetriedBetween(s'.log, i, |s'.log|, id)
  {
    assert forall k :: 0 <= k < |s.log| ==> s'.log[k] == s.log[k];
  }

  lemma LeasesStillStand(s: State, s': State, lease: int)
    requires lease > 0 && NextMoves(s, s', lease) && LeasesStand(s, lease)
    ensures LeasesStand(s', lease)
  {
    var n := |s.log|;
    forall i, id | 0 <= i < |s'.log| && IsClaimOf(s'.log[i], id) && !RetriedBetween(s'.log, i, |s'.log|, id)
      ensures id in s'.rows && s'.log[i].at + lease <= s'.rows[id].next
    {
      if i < n {
        assert s.log[i] == s'.log[i];
        RetriedBetweenPrefix(s, s', i, n, id);
        assert s.log[i].at + lease <= s.rows[id].next;
      }
    }
  }

  lemma ClaimsStillSpaced(s: State, s': State, lease: int)
    requires NextMoves(s, s', lease) && ClaimsSpaced(s.log, lease) && LeasesStand(s, lease)
    ensures ClaimsSpaced(s'.log, lease)
  {
    forall i, j, id | 0 <= i < j < |s'.log| && IsClaimOf(s'.log[i], id) && IsClaimOf(s'.log[j], id)
                      && !RetriedBetween(s'.log, i, j, id)
      ensures s'.log[i].at + lease <= s'.log[j].at
    {
      assert s.log[i] == s'.log[i];
      RetriedBetweenPrefix(s, s', i, j, id);
      if j < |s.log| {
        assert s.log[j] == s'.log[j];
      } else {
        assert s.log[i].at + lease <= s.rows[id].next;
      }
    }
  }

  lemma SpacingStep(cfg: Config, s: State, a: Action)
    requires cfg.lease > 0 && Enabled(s, a) && ClaimsSpaced(s.log, cfg.lease) && LeasesStand(s, cfg.lease)
    ensures ClaimsSpaced(Apply(cfg, s, a).log, cfg.lease) && LeasesStand(Apply(cfg, s, a), cfg.lease)
  {
    StepMovesNext(cfg, s, a);
    LeasesStillStand(s, Apply(cfg, s, a), cfg.lease);
    ClaimsStillSpaced(s, Apply(cfg, s, a), cfg.lease);
  }

  lemma {:induction false} SpacingRun(cfg: Config, s: State, acts: seq<Action>, end: State)
    requires cfg.lease > 0 && Run(cfg, s, acts, end) && ClaimsSpaced(s.log, cfg.lease) && LeasesStand(s, cfg.lease)
    ensures ClaimsSpaced(end.log, cfg.lease)
    decreases |acts|
  {
    if acts != [] {
      SpacingStep(cfg, s, acts[0]);
      SpacingRun(cfg, Apply(cfg, s, acts[0]), acts[1..], end);
    }
  }

  /** Crashes, late workers and duplicates included: two claims of a row are at least one lease apart unless the
      row was rescheduled between them. */
  lemma ClaimsAreALeaseApart(cfg: Config, start: int, acts: seq<Action>, s: State, i: nat, j: nat, id: Id)
    requires cfg.Valid() && Run(cfg, Init(start), acts, s)
    requires i < j < |s.log| && IsClaimOf(s.log[i], id) && IsClaimOf(s.log[j], id)
    requires !RetriedBetween(s.log, i, j, id)
    ensures s.log[i].at + cfg.lease <= s.log[j].at
  {
    SpacingRun(cfg, Init(start), acts, s);
  }

  // ---- Timely runs: a worker finalises or stops before its lease ends ----

  predicate Timely(cfg: Config, s: State, a: Action) {
    a.Finalise? && a.ticket in s.holds ==> s.now < s.holds[a.ticket].at + cfg.lease
  }

  ghost predicate TimelyRun(cfg: Config, s: State, acts: seq<Action>, end: State)
    decreases |acts|
  {
    if acts == [] then end == s
    else Enabled(s, acts[0]) && Timely(cfg, s, acts[0]) && TimelyRun(cfg, Apply(cfg, s, acts[0]), acts[1..], end)
  }

  /** The worker still owns the row: its lease has not run out. */
  predicate Live(cfg: Config, s: State, k: Ticket) {
    k in s.holds && s.now < s.holds[k].at + cfg.lease
  }

  ghost predicate HoldsMatchRows(s: State) {
    forall k :: k in s.holds ==> k.sweep < s.sweeps && k.id in s.rows && s.rows[k.id].user == s.holds[k].user
  }

  ghost predicate LiveHoldsOwn(cfg: Config, s: State) {
    forall k :: Live(cfg, s, k) ==>
      && k.id in s.rows
      && s.rows[k.id].status == Pending
      && s.rows[k.id].next == s.holds[k].at + cfg.lease
      && s.rows[k.id].attempts == s.holds[k].attempts
  }

  ghost predicate OneWorkerPerRow(cfg: Config, s: State) {
    forall j, k :: Live(cfg, s, j) && Live(cfg, s, k) && j.id == k.id ==> j == k
  }

  ghost predicate LeaseInv(cfg: Config, s: State) {
    HoldsMatchRows(s) && LiveHoldsOwn(cfg, s) && OneWorkerPerRow(cfg, s)
  }

  /** After a claim a live hold is a new one on a due row, or an old one on a row not claimed. */
  predicate NewOrOther(cfg: Config, s: State, a: Action, s': State, k: Ticket)
    requires a.Claim? && k in s'.holds && k.id in s.rows && k.id in s'.rows
  {
    if k.sweep == s.sweeps then
      && k.id in a.ids && s.rows[k.id].status == Pending
      && s'.holds[k] == Hold(s.rows[k.id].attempts, s.rows[k.id].user, a.reading, Claimed)
      && s'.rows[k.id] == s.rows[k.id].(next := a.reading + cfg.lease)
    else Live(cfg, s, k) && k.id !in a.ids && s'.holds[k] == s.holds[k] && s'.rows[k.id] == s.rows[k.id]
  }

  lemma ClaimedHolds(cfg: Config, s: State, a: Action, k: Ticket)
    requires cfg.lease > 0 && Enabled(s, a) && a.Claim? && LeaseInv(cfg, s) && k in Apply(cfg, s, a).holds
    ensures var s' := Apply(cfg, s, a);
            && k.sweep < s'.sweeps && k.id in s.rows && k.id in s'.rows && s'.rows[k.id].user == s'.holds[k].user
            && (Live(cfg, s', k) ==> NewOrOther(cfg, s, a, s', k))
  {
    var claimed := NewHolds(s.rows, s.sweeps, a.ids, a.reading);
    assert k in claimed <==> k.sweep == s.sweeps && k.id in a.ids by {
      assert k in Tickets(s.sweeps, a.ids) <==> k == Ticket(s.sweeps, k.id) && k.id in a.ids;
    }
    if k in claimed {
      assert k.id in DueUnlocked(s.rows, a.reading, a.locked);
    } else {
      assert k in s.holds;
      if k.id in a.ids { assert Due(s.rows, k.id, a.reading); }
    }
  }

  ghost predicate AllNewOrOther(cfg: Config, s: State, a: Action, s': State)
    requires a.Claim?
  {
    forall k :: k in s'.holds ==>
      && k.sweep < s'.sweeps && k.id in s.rows && k.id in s'.rows && s'.rows[k.id].user == s'.holds[k].user
      && (Live(cfg, s', k) ==> NewOrOther(cfg, s, a, s', k))
  }

  lemma ClaimedLeases(cfg: Config, s: State, a: Action, s': State)
    requires a.Claim? && LeaseInv(cfg, s) && AllNewOrOther(cfg, s, a, s')
    ensures LeaseInv(cfg, s')
  {
    forall j, k | Live(cfg, s', j) && Live(cfg, s', k) && j.id == k.id
      ensures j == k
    {
      assert NewOrOther(cfg, s, a, s', j) && NewOrOther(cfg, s, a, s', k);
    }
  }

  lemma ClaimKeepsLeases(cfg: Config, s: State, a: Action)
    requires cfg.lease > 0 && Enabled(s, a) && a.Claim? && LeaseInv(cfg, s)
    ensures LeaseInv(cfg, Apply(cfg, s, a))
  {
    hide NewOrOther, LeaseInv, Apply, Enabled, Live;
    forall k | k in Apply(cfg, s, a).holds
      ensures var s' := Apply(cfg, s, a);
              && k.sweep < s'.sweeps && k.id in s.rows && k.id in s'.rows && s'.rows[k.id].user == s'.holds[k].user
              && (Live(cfg, s', k) ==> NewOrOther(cfg, s, a, s', k))
    {
      ClaimedHolds(cfg, s, a, k);
    }
    ClaimedLeases(cfg, s, a, Apply(cfg, s, a));
  }

  lemma QuietStep(cfg: Config, s: State, a: Action)
    requires Enabled(s, a) && !a.Claim? && !a.Finalise?
    ensures var s' := Apply(cfg, s, a);
            && s'.now >= s.now && s'.sweeps == s.sweeps
            && (forall id :: id in s.rows ==> id in s'.rows && s'.rows[id] == s.rows[id])
            && (forall k :: k in s'.holds ==> k in s.holds && s'.holds[k] == s.holds[k].(phase := s'.holds[k].phase))
  {}

  lemma FinaliseKeepsLeases(cfg: Config, s: State, a: Action)
    requires Enabled(s, a) && a.Finalise? && Timely(cfg, s, a) && LeaseInv(cfg, s)
    ensures LeaseInv(cfg, Apply(cfg, s, a))
  {
    var s' := Apply(cfg, s, a);
    assert Live(cfg, s, a.ticket);
    forall k | Live(cfg, s', k)
      ensures Live(cfg, s, k) && k.id != a.ticket.id
    {
      assert s'.holds == s.holds - {a.ticket};
    }
    assert forall id :: id in s.rows && id != a.ticket.id ==> s'.rows[id] == s.rows[id];
  }

  lemma OtherStepsKeepLeases(cfg: Config, s: State, a: Action)
    requires Enabled(s, a) && !a.Claim? && !a.Finalise? && LeaseInv(cfg, s)
    ensures LeaseInv(cfg, Apply(cfg, s, a))
  {
    QuietStep(cfg, s, a);
    assert forall k :: Live(cfg, Apply(cfg, s, a), k) ==> Live(cfg, s, k);
  }

  lemma LeaseStep(cfg: Config, s: State, a: Action)
    requires cfg.lease > 0 && Enabled(s, a) && Timely(cfg, s, a) && LeaseInv(cfg, s)
    ensures LeaseInv(cfg, Apply(cfg, s, a))
  {
    if a.Claim? {
      ClaimKeepsLeases(cfg, s, a);
    } else if a.Finalise? {
      FinaliseKeepsLeases(cfg, s, a);
    } else {
      OtherStepsKeepLeases(cfg, s, a);
    }
  }

  lemma TerminalRowsStay(cfg: Config, s: State, a: Action, id: Id)
    requires Enabled(s, a) && Timely(cfg, s, a) && LeaseInv(cfg, s)
    requires id in s.rows && s.rows[id].status != Pending
    ensures id in Apply(cfg, s, a).rows && Apply(cfg, s, a).rows[id] == s.rows[id]
  {
    if a.Finalise? {
      assert Live(cfg, s, a.ticket);
    }
  }

  lemma {:induction false} LeaseRun(cfg: Config, s: State, acts: seq<Action>, end: State)
    requires cfg.lease > 0 && TimelyRun(cfg, s, acts, end) && LeaseInv(cfg, s)
    ensures LeaseInv(cfg, end)
    ensures forall id :: id in s.rows && s.rows[id].status != Pending ==> id in end.rows && end.rows[id] == s.rows[id]
    decreases |acts|
  {
    if acts != [] {
      var s' := Apply(cfg, s, acts[0]);
      LeaseStep(cfg, s, acts[0]);
      forall id | id in s.rows && s.rows[id].status != Pending
        ensures id in s'.rows && s'.rows[id] == s.rows[id]
      {
        TerminalRowsStay(cfg, s, acts[0], id);
      }
      LeaseRun(cfg, s', acts[1..], end);
    }
  }

  /** At every moment of a timely run at most one worker owns a row, the row is then pending, and whatever is
      sent or failed at the end of a prefix is the same at the end of the run. */
  lemma OneWorkerAndFinalIsFinal(cfg: Config, start: int, acts: seq<Action>, s: State, more: seq<Action>, end: State)
    requires cfg.Valid() && TimelyRun(cfg, Init(start), acts, s) && TimelyRun(cfg, s, more, end)
    ensures forall j, k :: Live(cfg, s, j) && Live(cfg, s, k) && j.id == k.id ==> j == k
    ensures forall k :: Live(cfg, s, k) ==> k.id in s.rows && s.rows[k.id].status == Pending
    ensures forall id :: id in s.rows && s.rows[id].status != Pending ==> id in end.rows && end.rows[id] == s.rows[id]
  {
    LeaseRun(cfg, Init(start), acts, s);
    LeaseRun(cfg, s, more, end);
  }
}
