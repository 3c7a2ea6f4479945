/** Timely runs: how many passes end a row, and how long failing takes. */
module OutboxAttempts {
  import opened Common
  import opened Outbox
  import opened OutboxProtocol
  import opened OutboxLeases
  import opened OutboxEvidence

  predicate IsTransientPassOf(e: Entry, id: Id) {
    (e.RetriedAt? || e.FailedAt?) && e.ticket.id == id
  }

  /** Committed passes of the row that ended transient. */
  function TransientPasses(log: seq<Entry>, id: Id): nat {
    if log == [] then 0
    else TransientPasses(log[..|log| - 1], id) + if IsTransientPassOf(log[|log| - 1], id) then 1 else 0
  }

  /** The clock reading at which the first of them ended. */
  function FirstTransient(log: seq<Entry>, id: Id): Option<int> {
    if log == [] then None
    else
      var earlier := FirstTransient(log[..|log| - 1], id);
      if earlier.None? && IsTransientPassOf(log[|log| - 1], id) then Some(log[|log| - 1].at) else earlier
  }

  lemma OneMoreEntry(log: seq<Entry>, e: Entry, id: Id)
    ensures TransientPasses(log + [e], id) == TransientPasses(log, id) + if IsTransientPassOf(e, id) then 1 else 0
    ensures FirstTransient(log + [e], id) ==
            if FirstTransient(log, id).None? && IsTransientPassOf(e, id) then Some(e.at) else FirstTransient(log, id)
  {
    assert (log + [e])[..|log|] == log;
  }

  lemma {:induction false} FirstExistsWithPasses(log: seq<Entry>, id: Id)
    ensures FirstTransient(log, id).Some? <==> TransientPasses(log, id) > 0
  {
    if log != [] { FirstExistsWithPasses(log[..|log| - 1], id); }
  }

  predicate AttemptsMatch(cfg: Config, r: Row, passes: nat) {
    if r.status == Failed then r.attempts == cfg.maxAttempts - 1 && passes == cfg.maxAttempts
    else r.attempts == passes < cfg.maxAttempts
  }

  ghost predicate AttemptInv(cfg: Config, s: State) {
    forall id :: if id in s.rows then AttemptsMatch(cfg, s.rows[id], TransientPasses(s.log, id))
                 else TransientPasses(s.log, id) == 0
  }

  predicate CountsPass(s: State, a: Action, id: Id) {
    a.Finalise? && a.ticket.id == id && a.ticket in s.holds && EndedTransient(s.holds[a.ticket].phase)
  }

  /** Only a finalise ends the passes of its own row. */
  lemma OtherEntriesCountNothing(cfg: Config, s: State, a: Action, id: Id)
    requires Enabled(s, a) && !a.Finalise?
    ensures TransientPasses(Apply(cfg, s, a).log, id) == TransientPasses(s.log, id)
    ensures FirstTransient(Apply(cfg, s, a).log, id) == FirstTransient(s.log, id)
  {
    StepLogs(cfg, s, a);
    hide Enabled, Apply;
    var s' := Apply(cfg, s, a);
    if s'.log != s.log {
      var e :| && s'.log == s.log + [e]
               && (e.ClaimedAt? || Touched(a) == Some(e.ticket))
               && (e.SentAt? || e.FailedAt? || e.RetriedAt? ==> a.Finalise?);
      OneMoreEntry(s.log, e, id);
    }
  }

  lemma FinaliseCounts(cfg: Config, s: State, a: Action, id: Id)
    requires Enabled(s, a) && a.Finalise?
    ensures TransientPasses(Apply(cfg, s, a).log, id) ==
            TransientPasses(s.log, id) + if CountsPass(s, a, id) then 1 else 0
    ensures FirstTransient(Apply(cfg, s, a).log, id) ==
            if FirstTransient(s.log, id).None? && CountsPass(s, a, id) then Some(a.reading)
            else FirstTransient(s.log, id)
  {
    var k := a.ticket;
    var e := FinalEntry(VerdictOf(cfg, s.holds[k].attempts, EndedTransient(s.holds[k].phase)), cfg, k, a.reading);
    assert Apply(cfg, s, a).log == s.log + [e];
    OneMoreEntry(s.log, e, id);
  }

  lemma PassesMove(cfg: Config, s: State, a: Action, id: Id)
    requires Enabled(s, a)
    ensures TransientPasses(Apply(cfg, s, a).log, id) ==
            TransientPasses(s.log, id) + if CountsPass(s, a, id) then 1 else 0
    ensures FirstTransient(Apply(cfg, s, a).log, id) ==
            if FirstTransient(s.log, id).None? && CountsPass(s, a, id) then Some(a.reading)
            else FirstTransient(s.log, id)
  {
    if a.Finalise? { FinaliseCounts(cfg, s, a, id); } else { OtherEntriesCountNothing(cfg, s, a, id); }
  }

  lemma AttemptStep(cfg: Config, s: State, a: Action)
    requires cfg.Valid() && Enabled(s, a) && Timely(cfg, s, a) && LeaseInv(cfg, s) && AttemptInv(cfg, s)
    ensures AttemptInv(cfg, Apply(cfg, s, a))
  {
    var s' := Apply(cfg, s, a);
    forall id
      ensures if id in s'.rows then AttemptsMatch(cfg, s'.rows[id], TransientPasses(s'.log, id))
              else TransientPasses(s'.log, id) == 0
    {
      PassesMove(cfg, s, a, id);
      AttemptsMove(cfg, s, a, id);
    }
  }

  /** What a timely step does to a row's status and attempts. */
  lemma AttemptsMove(cfg: Config, s: State, a: Action, id: Id)
    requires cfg.Valid() && Enabled(s, a) && Timely(cfg, s, a) && LeaseInv(cfg, s)
    ensures id in s.rows ==> id in Apply(cfg, s, a).rows
    ensures id in Apply(cfg, s, a).rows && id !in s.rows ==>
              Apply(cfg, s, a).rows[id].attempts == 0 && Apply(cfg, s, a).rows[id].status == Pending && !a.Finalise?
    ensures id in s.rows && !(a.Finalise? && a.ticket.id == id) ==>
              && Apply(cfg, s, a).rows[id].attempts == s.rows[id].attempts
              && Apply(cfg, s, a).rows[id].status == s.rows[id].status
    ensures a.Finalise? && a.ticket.id == id ==>
              && id in s.rows && s.rows[id].status == Pending && Live(cfg, s, a.ticket)
              && var n, after := s.rows[id].attempts, Apply(cfg, s, a).rows[id];
                 if !EndedTransient(s.holds[a.ticket].phase) then after.status == Sent && after.attempts == n
                 else if n + 1 >= cfg.maxAttempts then after.status == Failed && after.attempts == n
                 else after.status == Pending && after.attempts == n + 1
                      && after.next == a.reading + Backoff(cfg.base, n + 1)
  {
    match a {
      case Record(_, _, _, _) =>
      case Claim(_, _, _, _) =>
      case Finalise(k, _) => assert Live(cfg, s, k);
      case _ => assert Apply(cfg, s, a).rows == s.rows;
    }
  }

  lemma {:induction false} AttemptRun(cfg: Config, s: State, acts: seq<Action>, end: State)
    requires cfg.Valid() && TimelyRun(cfg, s, acts, end) && LeaseInv(cfg, s) && AttemptInv(cfg, s)
    ensures LeaseInv(cfg, end) && AttemptInv(cfg, end)
    decreases |acts|
  {
    if acts != [] {
      LeaseStep(cfg, s, acts[0]);
      AttemptStep(cfg, s, acts[0]);
      AttemptRun(cfg, Apply(cfg, s, acts[0]), acts[1..], end);
    }
  }

  /** In a timely run a row is failed exactly when MaxAttempts committed passes ended transient; its stored attempts
      are then one less. Until then the stored attempts are the number of such passes. */
  lemma FailedIffAttemptsExhausted(cfg: Config, start: int, acts: seq<Action>, s: State, id: Id)
    requires cfg.Valid() && TimelyRun(cfg, Init(start), acts, s) && id in s.rows
    ensures s.rows[id].status == Failed <==> TransientPasses(s.log, id) == cfg.maxAttempts
    ensures s.rows[id].status == Failed ==> s.rows[id].attempts == cfg.maxAttempts - 1
    ensures s.rows[id].status != Failed ==> s.rows[id].attempts == TransientPasses(s.log, id) < cfg.maxAttempts
  {
    AttemptRun(cfg, Init(start), acts, s);
    assert AttemptsMatch(cfg, s.rows[id], TransientPasses(s.log, id));
  }

  /** Each committed reschedule of a timely run leaves one attempt fewer, and at least one. */
  lemma RescheduleUsesAnAttempt(cfg: Config, start: int, acts: seq<Action>, s: State, a: Action)
    requires cfg.Valid() && TimelyRun(cfg, Init(start), acts, s) && Enabled(s, a) && Timely(cfg, s, a)
    requires a.Finalise? && VerdictOf(cfg, s.holds[a.ticket].attempts, EndedTransient(s.holds[a.ticket].phase)).Retry?
    ensures a.ticket.id in s.rows && a.ticket.id in Apply(cfg, s, a).rows
    ensures 0 < cfg.maxAttempts - Apply(cfg, s, a).rows[a.ticket.id].attempts
              == cfg.maxAttempts - s.rows[a.ticket.id].attempts - 1
  {
    AttemptRun(cfg, Init(start), acts, s);
    AttemptsMove(cfg, s, a, a.ticket.id);
    assert AttemptsMatch(cfg, s.rows[a.ticket.id], TransientPasses(s.log, a.ticket.id));
  }

  // ---- How long failing takes ----

  /** The sum of the first n delays. */
  function Span(base: int, n: nat): int {
    if n == 0 then 0 else Span(base, n - 1) + Backoff(base, n)
  }

  /** Where no delay overflows: doubling while the shift grows, then one longest delay after another. */
  lemma SpanIsClosed(base: int, n: nat)
    requires 0 < base < 0x8000_0000_0000
    ensures n <= 17 ==> Span(base, n) == base * (Pow2(n) - 1)
    ensures n > 17 ==> Span(base, n) == base * 0x1_FFFF + (n - 17) * (base * 0x1_0000)
  {
    if n <= 17 { SpanWhileDoubling(base, n); } else { SpanAfterDoubling(base, n); }
  }

  lemma {:induction false} SpanWhileDoubling(base: int, n: nat)
    requires 0 < base < 0x8000_0000_0000 && n <= 17
    ensures Span(base, n) == base * (Pow2(n) - 1)
  {
    if n > 0 {
      SpanWhileDoubling(base, n - 1);
      BackoffIsExact(base, n);
      var p: int := Pow2(n - 1);
      assert Pow2(n) == 2 * p && Span(base, n) == Span(base, n - 1) + Backoff(base, n);
      hide Pow2, Backoff, Span;
      OneMoreProduct(base, p);
    }
  }

  lemma OneMoreProduct(base: int, p: int)
    ensures base * (p - 1) + base * p == base * (2 * p - 1)
  {}

  lemma {:induction false} SpanAfterDoubling(base: int, n: nat)
    requires 0 < base < 0x8000_0000_0000 && n >= 17
    ensures Span(base, n) == base * 0x1_FFFF + (n - 17) * (base * 0x1_0000)
  {
    Pow2Of16();
    if n == 17 {
      SpanWhileDoubling(base, 17);
      assert Pow2(17) == 0x2_0000;
    } else {
      SpanAfterDoubling(base, n - 1);
      BackoffIsExact(base, n);
      assert Span(base, n) == Span(base, n - 1) + base * 0x1_0000;
      hide Pow2, Backoff, Span;
      OneLess(n - 17, base * 0x1_0000);
    }
  }

  lemma OneLess(k: int, x: int)
    ensures k * x == (k - 1) * x + x
  {}

  /** `at` is no earlier than the row's whole schedule so far allows. */
  predicate AfterSchedule(cfg: Config, log: seq<Entry>, id: Id, passes: nat, at: int) {
    FirstTransient(log, id).Some? ==> FirstTransient(log, id).value + Span(cfg.base, passes) <= at
  }

  ghost predicate RowDelayed(cfg: Config, s: State, id: Id) {
    id in s.rows && s.rows[id].status == Pending ==>
      AfterSchedule(cfg, s.log, id, TransientPasses(s.log, id), s.rows[id].next)
  }

  ghost predicate HoldDelayed(cfg: Config, s: State, k: Ticket) {
    Live(cfg, s, k) ==> AfterSchedule(cfg, s.log, k.id, TransientPasses(s.log, k.id), s.holds[k].at)
  }

  ghost predicate EntryDelayed(cfg: Config, log: seq<Entry>, e: Entry)
    requires cfg.Valid()
  {
    e.FailedAt? ==>
      FirstTransient(log, e.ticket.id).Some? && AfterSchedule(cfg, log, e.ticket.id, cfg.maxAttempts - 1, e.at)
  }

  ghost predicate DelayInv(cfg: Config, s: State)
    requires cfg.Valid()
  {
    && (forall id :: RowDelayed(cfg, s, id))
    && (forall k :: HoldDelayed(cfg, s, k))
    && (forall e :: e in s.log ==> EntryDelayed(cfg, s.log, e))
  }

  lemma RowStaysDelayed(cfg: Config, s: State, a: Action, id: Id)
    requires cfg.Valid() && Enabled(s, a) && Timely(cfg, s, a)
    requires LeaseInv(cfg, s) && AttemptInv(cfg, s) && DelayInv(cfg, s)
    ensures RowDelayed(cfg, Apply(cfg, s, a), id)
  {
    PassesMove(cfg, s, a, id);
    AttemptsMove(cfg, s, a, id);
    FirstExistsWithPasses(s.log, id);
    assert RowDelayed(cfg, s, id);
    if a.Finalise? && a.ticket.id == id && EndedTransient(s.holds[a.ticket].phase) {
      var n := TransientPasses(s.log, id);
      assert AttemptsMatch(cfg, s.rows[id], n);
      assert HoldDelayed(cfg, s, a.ticket);
    } else if a.Claim? && id in a.ids {
      assert Due(s.rows, id, a.reading);
    } else if id in s.rows {
      NextMoveFrame(cfg, s, a, id);
    }
  }

  /** Without a claim or a finalise of the row its due time stays. */
  lemma NextMoveFrame(cfg: Config, s: State, a: Action, id: Id)
    requires Enabled(s, a) && id in s.rows
    requires !(a.Claim? && id in a.ids)
    requires !(a.Finalise? && a.ticket.id == id && EndedTransient(s.holds[a.ticket].phase))
    ensures id in Apply(cfg, s, a).rows && Apply(cfg, s, a).rows[id].next == s.rows[id].next
  {
    match a {
      case Record(_, _, _, _) =>
      case Claim(_, _, _, _) =>
      case Finalise(_, _) =>
      case _ => assert Apply(cfg, s, a).rows == s.rows;
    }
  }

  lemma HoldStaysDelayed(cfg: Config, s: State, a: Action, k: Ticket)
    requires cfg.Valid() && Enabled(s, a) && Timely(cfg, s, a)
    requires LeaseInv(cfg, s) && AttemptInv(cfg, s) && DelayInv(cfg, s)
    ensures HoldDelayed(cfg, Apply(cfg, s, a), k)
  {
    var s' := Apply(cfg, s, a);
    PassesMove(cfg, s, a, k.id);
    if Live(cfg, s', k) {
      if a.Claim? && k in NewHolds(s.rows, s.sweeps, a.ids, a.reading) {
        assert Due(s.rows, k.id, a.reading);
        assert RowDelayed(cfg, s, k.id);
      } else {
        assert HoldDelayed(cfg, s, k) && k in s.holds && s'.holds[k].at == s.holds[k].at by {
          if !a.Claim? && !a.Finalise? { QuietStep(cfg, s, a); }
        }
        if a.Finalise? {
          assert Live(cfg, s, a.ticket) && Live(cfg, s, k) && a.ticket != k;
        }
      }
    }
  }

  lemma EntriesStayDelayed(cfg: Config, s: State, a: Action)
    requires cfg.Valid() && Enabled(s, a) && Timely(cfg, s, a)
    requires LeaseInv(cfg, s) && AttemptInv(cfg, s) && DelayInv(cfg, s)
    ensures forall e :: e in Apply(cfg, s, a).log ==> EntryDelayed(cfg, Apply(cfg, s, a).log, e)
  {
    StepLogs(cfg, s, a);
    hide Enabled, Apply, LeaseInv, AttemptInv, AfterSchedule;
    forall e | e in Apply(cfg, s, a).log && e.FailedAt?
      ensures EntryDelayed(cfg, Apply(cfg, s, a).log, e)
    {
      if e in s.log { OldFailureDelayed(cfg, s, a, e); } else { NewFailureDelayed(cfg, s, a, e); }
    }
  }

  lemma OldFailureDelayed(cfg: Config, s: State, a: Action, e: Entry)
    requires cfg.Valid() && Enabled(s, a) && e in s.log && e.FailedAt? && DelayInv(cfg, s)
    ensures EntryDelayed(cfg, Apply(cfg, s, a).log, e)
  {
    PassesMove(cfg, s, a, e.ticket.id);
    assert EntryDelayed(cfg, s.log, e);
    hide Enabled, Apply, DelayInv;
  }

  lemma NewFailureDelayed(cfg: Config, s: State, a: Action, e: Entry)
    requires cfg.Valid() && Enabled(s, a) && Timely(cfg, s, a) && LeaseInv(cfg, s) && AttemptInv(cfg, s)
    requires DelayInv(cfg, s) && e in Apply(cfg, s, a).log && e !in s.log && e.FailedAt?
    ensures EntryDelayed(cfg, Apply(cfg, s, a).log, e)
  {
    var k := a.ticket;
    StepLogs(cfg, s, a);
    assert a.Finalise? && e == FailedAt(k, a.reading) && s.holds[k].at <= a.reading;
    PassesMove(cfg, s, a, k.id);
    AttemptsMove(cfg, s, a, k.id);
    assert CountsPass(s, a, k.id) && s.rows[k.id].attempts + 1 >= cfg.maxAttempts;
    hide Enabled, Apply, LeaseInv;
    assert HoldDelayed(cfg, s, k);
    assert AttemptsMatch(cfg, s.rows[k.id], TransientPasses(s.log, k.id));
    FirstExistsWithPasses(s.log, k.id);
  }

  lemma DelayStep(cfg: Config, s: State, a: Action)
    requires cfg.Valid() && Enabled(s, a) && Timely(cfg, s, a)
    requires LeaseInv(cfg, s) && AttemptInv(cfg, s) && DelayInv(cfg, s)
    ensures DelayInv(cfg, Apply(cfg, s, a))
  {
    var s' := Apply(cfg, s, a);
    forall id
      ensures RowDelayed(cfg, s', id)
    {
      RowStaysDelayed(cfg, s, a, id);
    }
    forall k
      ensures HoldDelayed(cfg, s', k)
    {
      HoldStaysDelayed(cfg, s, a, k);
    }
    EntriesStayDelayed(cfg, s, a);
  }

  lemma {:induction false} DelayRun(cfg: Config, s: State, acts: seq<Action>, end: State)
    requires cfg.Valid() && TimelyRun(cfg, s, acts, end)
    requires LeaseInv(cfg, s) && AttemptInv(cfg, s) && DelayInv(cfg, s)
    ensures DelayInv(cfg, end)
    decreases |acts|
  {
    if acts != [] {
      LeaseStep(cfg, s, acts[0]);
      AttemptStep(cfg, s, acts[0]);
      DelayStep(cfg, s, acts[0]);
      DelayRun(cfg, Apply(cfg, s, acts[0]), acts[1..], end);
    }
  }

  /** In a timely run a row that fails does so no earlier than the sum of its MaxAttempts - 1 delays after its first
      transient pass; for up to 18 attempts that is BaseBackoff * (2^(MaxAttempts-1) - 1). */
  lemma FailingTakesTheWholeSchedule(cfg: Config, start: int, acts: seq<Action>, s: State, k: Ticket, at: int)
    requires cfg.Valid() && TimelyRun(cfg, Init(start), acts, s) && FailedAt(k, at) in s.log
    ensures FirstTransient(s.log, k.id).Some?
    ensures at >= FirstTransient(s.log, k.id).value + Span(cfg.base, cfg.maxAttempts - 1)
    ensures cfg.base < 0x8000_0000_0000 && cfg.maxAttempts <= 18 ==>
              at >= FirstTransient(s.log, k.id).value + cfg.base * (Pow2(cfg.maxAttempts - 1) - 1)
  {
    DelayRun(cfg, Init(start), acts, s);
    assert EntryDelayed(cfg, s.log, FailedAt(k, at));
    if cfg.base < 0x8000_0000_0000 { SpanIsClosed(cfg.base, cfg.maxAttempts - 1); }
  }
}
