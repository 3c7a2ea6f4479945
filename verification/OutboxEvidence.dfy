/** Every run: which passes stand behind a sent or failed row. */
module OutboxEvidence {
  import opened Common
  import opened Outbox
  import opened OutboxService
  import opened OutboxProtocol
  import opened OutboxLeases

  /** The devices were resolved and every device then active for the user took the push or had a dead token. */
  ghost predicate GoodPass(log: seq<Entry>, k: Ticket, user: string) {
    exists table: Devices ::
      && ResolvedTo(k, table) in log
      && forall d :: d in ActiveFor(table, user) ==> Pushed(k, d, Delivered) in log || Pushed(k, d, InvalidToken) in log
  }

  /** The devices could not be resolved or some push failed transiently. */
  ghost predicate BadPass(log: seq<Entry>, k: Ticket) {
    ResolveFailed(k) in log || exists d :: Pushed(k, d, Transient) in log
  }

  ghost predicate HoldEvidence(s: State, k: Ticket)
    requires k in s.holds
  {
    match s.holds[k].phase
    case Claimed => !BadPass(s.log, k)
    case Unresolved => ResolveFailed(k) in s.log
    case Pushing(table, devices, results) =>
      && ResolvedTo(k, table) in s.log
      && Enumerates(devices, ActiveFor(table, s.holds[k].user))
      && |results| <= |devices|
      && (forall i :: 0 <= i < |results| ==> Pushed(k, devices[i], results[i]) in s.log)
      && (Transient in results <==> BadPass(s.log, k))
  }

  predicate Concerns(e: Entry, k: Ticket) {
    !e.ClaimedAt? && e.ticket == k
  }

  /** What a finalising entry testifies to. */
  ghost predicate Backed(s: State, e: Entry) {
    match e
    case SentAt(k, _) => k !in s.holds && k.id in s.rows && GoodPass(s.log, k, s.rows[k.id].user) && !BadPass(s.log, k)
    case FailedAt(k, _) => k !in s.holds && BadPass(s.log, k)
    case RetriedAt(k, _, _) => k !in s.holds && BadPass(s.log, k)
    case _ => true
  }

  predicate Finalises(e: Entry, id: Id) {
    (e.SentAt? || e.FailedAt? || e.RetriedAt?) && e.ticket.id == id
  }

  /** The row's last finalising entry. */
  function LastFinal(log: seq<Entry>, id: Id): Option<Entry> {
    if log == [] then None
    else if Finalises(log[|log| - 1], id) then Some(log[|log| - 1])
    else LastFinal(log[..|log| - 1], id)
  }

  function StatusAfter(last: Option<Entry>): Status {
    if last.None? || last.value.RetriedAt? then Pending else if last.value.SentAt? then Sent else Failed
  }

  lemma {:induction false} LastFinalIsLogged(log: seq<Entry>, id: Id)
    ensures LastFinal(log, id).Some? ==> LastFinal(log, id).value in log && Finalises(LastFinal(log, id).value, id)
  {
    if log != [] && !Finalises(log[|log| - 1], id) {
      LastFinalIsLogged(log[..|log| - 1], id);
    }
  }

  lemma LastFinalOfMore(log: seq<Entry>, e: Entry, id: Id)
    ensures LastFinal(log + [e], id) == if Finalises(e, id) then Some(e) else LastFinal(log, id)
  {
    assert (log + [e])[..|log|] == log;
  }

  ghost predicate LogInv(s: State) {
    && HoldsMatchRows(s)
    && (forall e, k :: e in s.log && Concerns(e, k) ==> k.sweep < s.sweeps && k.id in s.rows)
    && (forall k :: k in s.holds ==> HoldEvidence(s, k))
    && (forall e :: e in s.log ==> Backed(s, e))
    && (forall id :: StatusAfter(LastFinal(s.log, id)) == if id in s.rows then s.rows[id].status else Pending)
  }

  lemma EvidenceGrows(log: seq<Entry>, e: Entry, k: Ticket, user: string)
    ensures GoodPass(log, k, user) ==> GoodPass(log + [e], k, user)
    ensures BadPass(log, k) ==> BadPass(log + [e], k)
    ensures BadPass(log + [e], k) <==>
            || BadPass(log, k) || e == ResolveFailed(k) || (e.Pushed? && e.ticket == k && e.result == Transient)
  {
    var log' := log + [e];
    assert e in log';
    assert forall x :: x in log' <==> x in log || x == e;
    if GoodPass(log, k, user) {
      var table: Devices :| && ResolvedTo(k, table) in log
                            && forall d :: d in ActiveFor(table, user) ==>
                                 Pushed(k, d, Delivered) in log || Pushed(k, d, InvalidToken) in log;
      assert ResolvedTo(k, table) in log';
    }
    if e.Pushed? && e.ticket == k && e.result == Transient {
      assert Pushed(k, e.device, Transient) in log';
    }
  }

  lemma FinishedPushingIsGood(s: State, k: Ticket)
    requires k in s.holds && HoldEvidence(s, k) && PassOver(s.holds[k].phase)
    ensures EndedTransient(s.holds[k].phase) <==> BadPass(s.log, k)
    ensures !BadPass(s.log, k) ==> GoodPass(s.log, k, s.holds[k].user)
  {
    if s.holds[k].phase.Pushing? && !BadPass(s.log, k) {
      var p := s.holds[k].phase;
      forall d | d in ActiveFor(p.table, s.holds[k].user)
        ensures Pushed(k, d, Delivered) in s.log || Pushed(k, d, InvalidToken) in s.log
      {
        var i :| 0 <= i < |p.devices| && p.devices[i] == d;
        assert p.results[i] in p.results;
        assert Pushed(k, d, p.results[i]) in s.log;
        assert p.results[i] == Delivered || p.results[i] == InvalidToken;
      }
    }
  }

  /** The ticket whose hold a step changes, if any. */
  function Touched(a: Action): Option<Ticket> {
    match a
    case Resolve(k, _) => Some(k)
    case FailToResolve(k) => Some(k)
    case Push(k, _) => Some(k)
    case Finalise(k, _) => Some(k)
    case Drop(k) => Some(k)
    case _ => None
  }

  /** A step logs at most one entry, a claim or one about the ticket it touches. */
  ghost predicate LogsAtMostOne(s: State, s': State, a: Action) {
    s'.log == s.log ||
    exists e :: && s'.log == s.log + [e]
                && (e.ClaimedAt? || Touched(a) == Some(e.ticket))
                && (e.SentAt? || e.FailedAt? || e.RetriedAt? ==> a.Finalise?)
  }

  lemma StepLogs(cfg: Config, s: State, a: Action)
    requires Enabled(s, a)
    ensures LogsAtMostOne(s, Apply(cfg, s, a), a)
  {
    var s' := Apply(cfg, s, a);
    match a {
      case Claim(_, _, _, ids) => assert s'.log == s.log + [ClaimedAt(s.sweeps, ids, a.reading)];
      case Resolve(k, _) => assert s'.log == s.log + [ResolvedTo(k, s.devices)];
      case FailToResolve(k) => assert s'.log == s.log + [ResolveFailed(k)];
      case Push(k, r) => assert s'.log == s.log + [Pushed(k, s.holds[k].phase.devices[|s.holds[k].phase.results|], r)];
      case Finalise(k, reading) =>
        var e := FinalEntry(VerdictOf(cfg, s.holds[k].attempts, EndedTransient(s.holds[k].phase)), cfg, k, reading);
        assert s'.log == s.log + [e] && e.ticket == k;
      case _ => assert s'.log == s.log;
    }
  }

  /** Which holds a step leaves alone, and what a new one looks like. */
  lemma StepHolds(cfg: Config, s: State, a: Action, k: Ticket)
    requires Enabled(s, a) && HoldsMatchRows(s) && k in Apply(cfg, s, a).holds
    ensures k in s.holds && Touched(a) != Some(k) ==> Apply(cfg, s, a).holds[k] == s.holds[k]
    ensures k in s.holds ==> Apply(cfg, s, a).holds[k].user == s.holds[k].user
    ensures k !in s.holds ==> k.sweep == s.sweeps < Apply(cfg, s, a).sweeps && k.id in s.rows
                              && Apply(cfg, s, a).holds[k].phase == Claimed
                              && Apply(cfg, s, a).holds[k].user == s.rows[k.id].user
    ensures s.sweeps <= Apply(cfg, s, a).sweeps
  {
    match a {
      case Claim(reading, _, _, ids) => assert k in NewHolds(s.rows, s.sweeps, ids, reading) ==> k.sweep == s.sweeps;
      case Resolve(_, _) =>
      case FailToResolve(_) =>
      case Push(_, _) =>
      case Finalise(_, _) =>
      case Drop(_) =>
      case _ => assert Apply(cfg, s, a).holds == s.holds;
    }
  }

  lemma TouchedIsHeld(s: State, a: Action)
    requires Enabled(s, a)
    ensures Touched(a).Some? ==> Touched(a).value in s.holds
  {}

  lemma HoldsStayMatched(cfg: Config, s: State, a: Action)
    requires Enabled(s, a) && HoldsMatchRows(s)
    ensures HoldsMatchRows(Apply(cfg, s, a))
  {
    StepKeepsRows(cfg, s, a);
    forall k | k in Apply(cfg, s, a).holds
      ensures && k.sweep < Apply(cfg, s, a).sweeps && k.id in Apply(cfg, s, a).rows
              && Apply(cfg, s, a).rows[k.id].user == Apply(cfg, s, a).holds[k].user
    {
      StepHolds(cfg, s, a, k);
    }
  }

  /** A ticket no step touched keeps its verdict on both sides. */
  lemma UntouchedEvidence(cfg: Config, s: State, a: Action, k: Ticket)
    requires Enabled(s, a) && HoldsMatchRows(s) && Touched(a) != Some(k)
    ensures BadPass(Apply(cfg, s, a).log, k) <==> BadPass(s.log, k)
    ensures forall user :: GoodPass(s.log, k, user) ==> GoodPass(Apply(cfg, s, a).log, k, user)
  {
    var s' := Apply(cfg, s, a);
    StepLogs(cfg, s, a);
    if s'.log != s.log {
      var e :| && s'.log == s.log + [e]
               && (e.ClaimedAt? || Touched(a) == Some(e.ticket))
               && (e.SentAt? || e.FailedAt? || e.RetriedAt? ==> a.Finalise?);
      forall user
        ensures GoodPass(s.log, k, user) ==> GoodPass(s'.log, k, user)
      {
        EvidenceGrows(s.log, e, k, user);
      }
      EvidenceGrows(s.log, e, k, "");
    }
  }

  lemma HoldStaysEvident(cfg: Config, s: State, a: Action, k: Ticket)
    requires Enabled(s, a) && LogInv(s) && k in Apply(cfg, s, a).holds
    ensures HoldEvidence(Apply(cfg, s, a), k)
  {
    hide Enabled, Apply;
    var s' := Apply(cfg, s, a);
    StepLogs(cfg, s, a);
    StepHolds(cfg, s, a, k);
    TouchedIsHeld(s, a);
    if k !in s.holds {
      UntouchedEvidence(cfg, s, a, k);
      if BadPass(s.log, k) {
        var e :| e in s.log && Concerns(e, k);
        assert false;
      }
    } else if Touched(a) != Some(k) {
      UntouchedEvidence(cfg, s, a, k);
      assert s'.holds[k] == s.holds[k];
      assert forall e :: e in s.log ==> e in s'.log;
    } else {
      TouchedHoldIsEvident(cfg, s, a, k);
    }
  }

  lemma TouchedHoldIsEvident(cfg: Config, s: State, a: Action, k: Ticket)
    requires Enabled(s, a) && LogInv(s) && k in s.holds && k in Apply(cfg, s, a).holds && Touched(a) == Some(k)
    ensures HoldEvidence(Apply(cfg, s, a), k)
  {
    var s' := Apply(cfg, s, a);
    assert HoldEvidence(s, k);
    match a {
      case Resolve(_, listing) => EvidenceGrows(s.log, ResolvedTo(k, s.devices), k, "");
      case FailToResolve(_) => EvidenceGrows(s.log, ResolveFailed(k), k, "");
      case Push(_, r) =>
        var p := s.holds[k].phase;
        var e := Pushed(k, p.devices[|p.results|], r);
        EvidenceGrows(s.log, e, k, "");
        assert s'.log == s.log + [e];
        assert forall x :: x in s.log ==> x in s'.log;
        assert e in s'.log;
        assert Transient in p.results + [r] <==> Transient in p.results || r == Transient;
    }
  }

  lemma EntryStaysBacked(cfg: Config, s: State, a: Action, e: Entry)
    requires Enabled(s, a) && LogInv(s) && e in s.log
    ensures Backed(Apply(cfg, s, a), e)
  {
    if e.SentAt? || e.FailedAt? || e.RetriedAt? {
      var k := e.ticket;
      assert Concerns(e, k) && k !in s.holds;
      StepKeepsRows(cfg, s, a);
      if k in Apply(cfg, s, a).holds { StepHolds(cfg, s, a, k); }
      UntouchedEvidence(cfg, s, a, k);
    }
  }

  lemma NewEntryIsBacked(cfg: Config, s: State, a: Action)
    requires Enabled(s, a) && LogInv(s) && a.Finalise?
    ensures var s' := Apply(cfg, s, a);
            && |s'.log| == |s.log| + 1 && s'.log[..|s.log|] == s.log
            && Backed(s', s'.log[|s.log|])
            && a.ticket.id in s'.rows
  {
    var s', k := Apply(cfg, s, a), a.ticket;
    StepKeepsRows(cfg, s, a);
    var e := FinalEntry(VerdictOf(cfg, s.holds[k].attempts, EndedTransient(s.holds[k].phase)), cfg, k, a.reading);
    assert s'.log == s.log + [e];
    FinishedPushingIsGood(s, k);
    EvidenceGrows(s.log, e, k, s.rows[k.id].user);
  }

  /** Only finalising a row's pass changes its status. */
  lemma StatusesMove(cfg: Config, s: State, a: Action, id: Id)
    requires Enabled(s, a) && HoldsMatchRows(s)
    ensures var rows, rows' := s.rows, Apply(cfg, s, a).rows;
      if a.Finalise? && a.ticket.id == id then
        var v := VerdictOf(cfg, s.holds[a.ticket].attempts, EndedTransient(s.holds[a.ticket].phase));
        id in rows' && rows'[id].status == if v == MarkSent then Sent else if v == MarkFailed then Failed else Pending
      else
        (if id in rows' then rows'[id].status else Pending) == if id in rows then rows[id].status else Pending
  {
    hide ClaimPick, ActiveFor, Backoff;
    match a
    case Record(_, _, _, _) =>
    case Claim(_, _, _, _) =>
    case Finalise(_, _) =>
    case _ => assert Apply(cfg, s, a).rows == s.rows;
  }

  lemma StatusIsTheLastEntry(cfg: Config, s: State, a: Action, id: Id)
    requires Enabled(s, a) && LogInv(s)
    ensures var s' := Apply(cfg, s, a);
      StatusAfter(LastFinal(s'.log, id)) == if id in s'.rows then s'.rows[id].status else Pending
  {
    var s' := Apply(cfg, s, a);
    StatusesMove(cfg, s, a, id);
    if a.Finalise? {
      var v := VerdictOf(cfg, s.holds[a.ticket].attempts, EndedTransient(s.holds[a.ticket].phase));
      assert s'.log == s.log + [FinalEntry(v, cfg, a.ticket, a.reading)];
      hide Enabled, Apply, LastFinal, Backoff, HoldsMatchRows;
      LastFinalOfMore(s.log, FinalEntry(v, cfg, a.ticket, a.reading), id);
    } else {
      StepLogs(cfg, s, a);
      hide Enabled, Apply, LastFinal, HoldsMatchRows;
      if s'.log != s.log {
        var e :| && s'.log == s.log + [e]
                 && (e.ClaimedAt? || Touched(a) == Some(e.ticket))
                 && (e.SentAt? || e.FailedAt? || e.RetriedAt? ==> a.Finalise?);
        LastFinalOfMore(s.log, e, id);
      }
    }
  }

  lemma EntriesStayKnown(cfg: Config, s: State, a: Action)
    requires Enabled(s, a) && LogInv(s)
    ensures forall e, k :: e in Apply(cfg, s, a).log && Concerns(e, k) ==>
              k.sweep < Apply(cfg, s, a).sweeps && k.id in Apply(cfg, s, a).rows
  {
    var s' := Apply(cfg, s, a);
    StepLogs(cfg, s, a);
    StepKeepsRows(cfg, s, a);
    forall e, k | e in s'.log && Concerns(e, k)
      ensures k.sweep < s'.sweeps && k.id in s'.rows
    {
      if e !in s.log {
        assert Touched(a) == Some(k) && k in s.holds;
      }
    }
  }

  lemma EntriesStayBacked(cfg: Config, s: State, a: Action)
    requires Enabled(s, a) && LogInv(s)
    ensures forall e :: e in Apply(cfg, s, a).log ==> Backed(Apply(cfg, s, a), e)
  {
    StepLogs(cfg, s, a);
    forall e | e in Apply(cfg, s, a).log
      ensures Backed(Apply(cfg, s, a), e)
    {
      if e in s.log {
        EntryStaysBacked(cfg, s, a, e);
      } else if a.Finalise? {
        NewEntryIsBacked(cfg, s, a);
      }
    }
  }

  lemma LogStep(cfg: Config, s: State, a: Action)
    requires Enabled(s, a) && LogInv(s)
    ensures LogInv(Apply(cfg, s, a))
  {
    var s' := Apply(cfg, s, a);
    HoldsStayMatched(cfg, s, a);
    EntriesStayKnown(cfg, s, a);
    EntriesStayBacked(cfg, s, a);
    forall k | k in s'.holds
      ensures HoldEvidence(s', k)
    {
      HoldStaysEvident(cfg, s, a, k);
    }
    forall id
      ensures StatusAfter(LastFinal(s'.log, id)) == if id in s'.rows then s'.rows[id].status else Pending
    {
      StatusIsTheLastEntry(cfg, s, a, id);
    }
  }

  lemma {:induction false} LogRun(cfg: Config, s: State, acts: seq<Action>, end: State)
    requires Run(cfg, s, acts, end) && LogInv(s)
    ensures LogInv(end)
    decreases |acts|
  {
    if acts != [] {
      LogStep(cfg, s, acts[0]);
      LogRun(cfg, Apply(cfg, s, acts[0]), acts[1..], end);
    }
  }

  /** In every run a row's status is what the last finalising of it says: for a sent row, that of a pass in which each
      device then active took the push or had a dead token and none failed transiently; for a failed row, that of a pass
      that ended transient; and a row never finalised, or last rescheduled, is pending. */
  lemma FinalRowsAreJustified(cfg: Config, start: int, acts: seq<Action>, s: State, id: Id)
    requires Run(cfg, Init(start), acts, s) && id in s.rows
    ensures var last := LastFinal(s.log, id);
      match s.rows[id].status
      case Sent => && last.Some? && last.value.SentAt? && last.value.ticket.id == id
                   && GoodPass(s.log, last.value.ticket, s.rows[id].user) && !BadPass(s.log, last.value.ticket)
      case Failed => last.Some? && last.value.FailedAt? && last.value.ticket.id == id
                     && BadPass(s.log, last.value.ticket)
      case Pending => last.Some? ==> last.value.RetriedAt? && BadPass(s.log, last.value.ticket)
  {
    LogRun(cfg, Init(start), acts, s);
    LastFinalIsLogged(s.log, id);
    var last := LastFinal(s.log, id);
    assert StatusAfter(last) == s.rows[id].status;
    if last.Some? { assert Backed(s, last.value); }
  }
}
