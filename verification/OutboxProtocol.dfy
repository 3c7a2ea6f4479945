/** The outbox as a protocol: a durable bus, any number of consumers and dispatchers, one clock, and a crash
    possible between any two statements. Every SQL statement is one atomic step; a clock reading may be
    older than the moment the statement it feeds takes effect. */
module OutboxProtocol {
  import opened Common
  import opened Outbox
  import opened OutboxService

  /** One claimed row inside one sweep. */
  datatype Ticket = Ticket(sweep: nat, id: Id)

  datatype Phase =
    | Claimed
    | Unresolved
    | Pushing(table: Devices, devices: seq<DeviceKey>, results: seq<PushResult>)

  datatype Hold = Hold(attempts: int, user: string, at: int, phase: Phase)

  datatype Outcome = Handling | Recorded | Errored

  datatype Delivery = Delivery(msg: nat, outcome: Outcome)

  datatype Entry =
    | ClaimedAt(sweep: nat, ids: set<Id>, at: int)
    | ResolvedTo(ticket: Ticket, table: Devices)
    | ResolveFailed(ticket: Ticket)
    | Pushed(ticket: Ticket, device: DeviceKey, result: PushResult)
    | SentAt(ticket: Ticket, at: int)
    | FailedAt(ticket: Ticket, at: int)
    | RetriedAt(ticket: Ticket, at: int, next: int)

  /** `bodies` is everything ever published; None is a body the handler cannot decode. */
  datatype State = State(now: int, bodies: map<nat, Option<Event>>, unacked: set<nat>,
                         deliveries: map<nat, Delivery>, rows: Table, devices: Devices,
                         holds: map<Ticket, Hold>, sweeps: nat, log: seq<Entry>)

  datatype Action =
    | Advance(to: int)
    | Publish(msg: nat, body: Option<Event>)
    | Deliver(delivery: nat, msg: nat)
    | Record(delivery: nat, freshId: Id, reading: int, replyLost: bool)
    | HandlerError(delivery: nat)
    | Ack(delivery: nat)
    | Nak(delivery: nat)
    | LoseDelivery(delivery: nat)
    | Register(key: DeviceKey, deviceId: Id, user: string, version: string, reading: int)
    | Deactivate(token: string)
    | Claim(reading: int, limit: nat, locked: set<Id>, ids: set<Id>)
    | Resolve(ticket: Ticket, listing: seq<DeviceKey>)
    | FailToResolve(ticket: Ticket)
    | Push(ticket: Ticket, result: PushResult)
    | Finalise(ticket: Ticket, reading: int)
    | Drop(ticket: Ticket)

  function Init(now: int): State {
    State(now, map[], {}, map[], map[], map[], map[], 0, [])
  }

  predicate PassOver(p: Phase) {
    p.Unresolved? || (p.Pushing? && |p.results| == |p.devices|)
  }

  predicate EndedTransient(p: Phase) {
    p.Unresolved? || (p.Pushing? && Transient in p.results)
  }

  predicate Recordable(body: Option<Event>) {
    body.Some? && WellFormed(body.value)
  }

  ghost predicate Enabled(s: State, a: Action) {
    match a
    case Advance(to) => s.now <= to
    case Publish(m, _) => m !in s.bodies
    case Deliver(d, m) => d !in s.deliveries && m in s.unacked && m in s.bodies
    case Record(d, id, reading, _) =>
      && d in s.deliveries && s.deliveries[d].outcome == Handling
      && s.deliveries[d].msg in s.bodies && Recordable(s.bodies[s.deliveries[d].msg])
      && id !in s.rows && reading <= s.now
    case HandlerError(d) => d in s.deliveries && s.deliveries[d].outcome == Handling
    case Ack(d) => d in s.deliveries && s.deliveries[d].outcome == Recorded
    case Nak(d) => d in s.deliveries && s.deliveries[d].outcome == Errored
    case LoseDelivery(d) => d in s.deliveries
    case Register(_, _, _, _, reading) => reading <= s.now
    case Deactivate(_) => true
    case Claim(reading, limit, locked, ids) => reading <= s.now && ClaimPick(s.rows, reading, limit, locked, ids)
    case Resolve(k, listing) =>
      k in s.holds && s.holds[k].phase == Claimed && Enumerates(listing, ActiveFor(s.devices, s.holds[k].user))
    case FailToResolve(k) => k in s.holds && s.holds[k].phase == Claimed
    case Push(k, _) =>
      k in s.holds && s.holds[k].phase.Pushing? && |s.holds[k].phase.results| < |s.holds[k].phase.devices|
    case Finalise(k, reading) =>
      k in s.holds && PassOver(s.holds[k].phase) && s.holds[k].at <= reading <= s.now
    case Drop(k) => k in s.holds
  }

  function Tickets(sweep: nat, ids: set<Id>): set<Ticket> {
    set id | id in ids :: Ticket(sweep, id)
  }

  function NewHolds(t: Table, sweep: nat, ids: set<Id>, at: int): map<Ticket, Hold>
    requires ids <= t.Keys
  {
    map k | k in Tickets(sweep, ids) :: Hold(t[k.id].attempts, t[k.id].user, at, Claimed)
  }

  function FinalEntry(v: Verdict, cfg: Config, k: Ticket, reading: int): Entry {
    match v
    case MarkSent => SentAt(k, reading)
    case MarkFailed => FailedAt(k, reading)
    case Retry(a) => RetriedAt(k, reading, reading + Backoff(cfg.base, a))
  }

  function WithPhase(s: State, k: Ticket, p: Phase, e: Entry): State
    requires k in s.holds
  {
    s.(holds := s.holds[k := s.holds[k].(phase := p)], log := s.log + [e])
  }

  function Apply(cfg: Config, s: State, a: Action): State
    requires Enabled(s, a)
  {
    match a
    case Advance(to) => s.(now := to)
    case Publish(m, body) => s.(bodies := s.bodies[m := body], unacked := s.unacked + {m})
    case Deliver(d, m) => s.(deliveries := s.deliveries[d := Delivery(m, Handling)])
    case Record(d, id, reading, replyLost) =>
      var delivery := s.deliveries[d];
      var row := ToOutbox(s.bodies[delivery.msg].value, reading).value;
      s.(rows := Enqueued(s.rows, id, row),
         deliveries := s.deliveries[d := delivery.(outcome := if replyLost then Errored else Recorded)])
    case HandlerError(d) => s.(deliveries := s.deliveries[d := s.deliveries[d].(outcome := Errored)])
    case Ack(d) => s.(unacked := s.unacked - {s.deliveries[d].msg}, deliveries := s.deliveries - {d})
    case Nak(d) => s.(deliveries := s.deliveries - {d})
    case LoseDelivery(d) => s.(deliveries := s.deliveries - {d})
    case Register(key, deviceId, user, version, reading) =>
      s.(devices := Upserted(s.devices, key, deviceId, user, version, reading))
    case Deactivate(token) => s.(devices := Deactivated(s.devices, token))
    case Claim(reading, _, _, ids) =>
      s.(rows := Leased(s.rows, ids, reading + cfg.lease),
         holds := s.holds + NewHolds(s.rows, s.sweeps, ids, reading),
         sweeps := s.sweeps + 1,
         log := s.log + [ClaimedAt(s.sweeps, ids, reading)])
    case Resolve(k, listing) => WithPhase(s, k, Pushing(s.devices, listing, []), ResolvedTo(k, s.devices))
    case FailToResolve(k) => WithPhase(s, k, Unresolved, ResolveFailed(k))
    case Push(k, result) =>
      var p := s.holds[k].phase;
      WithPhase(s, k, p.(results := p.results + [result]), Pushed(k, p.devices[|p.results|], result))
    case Finalise(k, reading) =>
      var v := VerdictOf(cfg, s.holds[k].attempts, EndedTransient(s.holds[k].phase));
      s.(rows := Finalised(s.rows, cfg, k.id, v, reading),
         holds := s.holds - {k},
         log := s.log + [FinalEntry(v, cfg, k, reading)])
    case Drop(k) => s.(holds := s.holds - {k})
  }

  ghost predicate Run(cfg: Config, s: State, acts: seq<Action>, end: State)
    decreases |acts|
  {
    if acts == [] then end == s
    else Enabled(s, acts[0]) && Run(cfg, Apply(cfg, s, acts[0]), acts[1..], end)
  }

  // ---- The bus and the table: nothing lost, nothing doubled ----

  ghost predicate FromEvent(r: Row, e: Event) {
    WellFormed(e) && r.user == User(e) && r.kind == KindOf(e) && r.payload == PayloadOf(e) && r.key == Key(e)
  }

  /** The message's event is in the table under its key. */
  ghost predicate InTable(s: State, m: nat) {
    m in s.bodies && Recordable(s.bodies[m]) && HasKey(s.rows, Key(s.bodies[m].value))
  }

  ghost predicate Announces(s: State, id: Id) {
    id in s.rows && exists m :: m in s.bodies && s.bodies[m].Some? && FromEvent(s.rows[id], s.bodies[m].value)
  }

  ghost predicate BusInv(s: State) {
    && UniqueKeys(s.rows)
    && (forall m :: m in s.bodies ==> m in s.unacked || InTable(s, m))
    && (forall d :: d in s.deliveries ==>
          s.deliveries[d].msg in s.bodies && (s.deliveries[d].outcome.Recorded? ==> InTable(s, s.deliveries[d].msg)))
    && (forall id :: id in s.rows ==> Announces(s, id))
  }

  /** What a step may do to the rows already there: never remove one, never change what it announces. */
  ghost predicate RowsKept(t: Table, t': Table) {
    forall id :: id in t ==>
      && id in t'
      && t'[id].user == t[id].user && t'[id].kind == t[id].kind && t'[id].payload == t[id].payload
      && t'[id].key == t[id].key && t'[id].created == t[id].created
  }

  lemma KeptKeys(t: Table, t': Table)
    requires RowsKept(t, t')
    ensures forall key :: HasKey(t, key) ==> HasKey(t', key)
  {
    forall key | HasKey(t, key)
      ensures HasKey(t', key)
    {
      var id :| id in t && t[id].key == key;
      assert t'[id].key == key;
    }
  }

  lemma EnqueuedKeepsRows(t: Table, freshId: Id, row: Row)
    requires freshId !in t
    ensures RowsKept(t, Enqueued(t, freshId, row))
  {}

  lemma LeasedKeepsRows(t: Table, ids: set<Id>, until: int)
    ensures RowsKept(t, Leased(t, ids, until)) && Leased(t, ids, until).Keys == t.Keys
  {}

  lemma RescheduledKeepsRows(t: Table, id: Id, attempts: int, next: int)
    ensures RowsKept(t, Rescheduled(t, id, attempts, next)) && Rescheduled(t, id, attempts, next).Keys == t.Keys
  {}

  lemma FinalisedKeepsRows(t: Table, cfg: Config, id: Id, v: Verdict, at: int)
    ensures RowsKept(t, Finalised(t, cfg, id, v, at)) && Finalised(t, cfg, id, v, at).Keys == t.Keys
  {
    match v {
      case Retry(a) => RescheduledKeepsRows(t, id, a, at + Backoff(cfg.base, a));
      case _ =>
    }
  }

  lemma StepKeepsRows(cfg: Config, s: State, a: Action)
    requires Enabled(s, a)
    ensures RowsKept(s.rows, Apply(cfg, s, a).rows)
    ensures !a.Record? ==> Apply(cfg, s, a).rows.Keys == s.rows.Keys
  {
    match a {
      case Record(d, id, reading, _) =>
        EnqueuedKeepsRows(s.rows, id, ToOutbox(s.bodies[s.deliveries[d].msg].value, reading).value);
      case Claim(reading, _, _, ids) => LeasedKeepsRows(s.rows, ids, reading + cfg.lease);
      case Finalise(k, reading) =>
        var v := VerdictOf(cfg, s.holds[k].attempts, EndedTransient(s.holds[k].phase));
        FinalisedKeepsRows(s.rows, cfg, k.id, v, reading);
      case _ => assert Apply(cfg, s, a).rows == s.rows;
    }
  }

  lemma StepKeepsFacts(cfg: Config, s: State, a: Action)
    requires Enabled(s, a)
    ensures forall m :: m in s.bodies ==> m in Apply(cfg, s, a).bodies && Apply(cfg, s, a).bodies[m] == s.bodies[m]
    ensures forall m :: InTable(s, m) ==> InTable(Apply(cfg, s, a), m)
    ensures forall id :: Announces(s, id) ==> Announces(Apply(cfg, s, a), id)
  {
    var s' := Apply(cfg, s, a);
    StepKeepsRows(cfg, s, a);
    KeptKeys(s.rows, s'.rows);
    forall m | m in s.bodies
      ensures m in s'.bodies && s'.bodies[m] == s.bodies[m]
    {
      match a {
        case Publish(_, _) =>
        case _ => assert s'.bodies == s.bodies;
      }
    }
    forall id | Announces(s, id)
      ensures Announces(s', id)
    {
      var m :| m in s.bodies && s.bodies[m].Some? && FromEvent(s.rows[id], s.bodies[m].value);
      assert FromEvent(s'.rows[id], s'.bodies[m].value);
    }
  }

  lemma RecordingStep(cfg: Config, s: State, a: Action)
    requires Enabled(s, a) && a.Record? && UniqueKeys(s.rows)
    ensures var s' := Apply(cfg, s, a);
            && UniqueKeys(s'.rows)
            && InTable(s', s.deliveries[a.delivery].msg)
            && forall id :: id in s'.rows && id !in s.rows ==> Announces(s', id)
  {
    var s' := Apply(cfg, s, a);
    var e := s.bodies[s.deliveries[a.delivery].msg].value;
    if !HasKey(s.rows, Key(e)) {
      assert s'.rows[a.freshId].key == Key(e);
      assert FromEvent(s'.rows[a.freshId], e);
    }
  }

  lemma SameIdsSameKeys(t: Table, t': Table)
    requires RowsKept(t, t') && t'.Keys == t.Keys && UniqueKeys(t)
    ensures UniqueKeys(t')
  {
    forall i, j | i in t' && j in t' && t'[i].key == t'[j].key
      ensures i == j
    {
      assert t[i].key == t[j].key;
    }
  }

  lemma RowsStayAccountedFor(cfg: Config, s: State, a: Action)
    requires Enabled(s, a) && UniqueKeys(s.rows) && forall id :: id in s.rows ==> Announces(s, id)
    ensures UniqueKeys(Apply(cfg, s, a).rows)
    ensures forall id :: id in Apply(cfg, s, a).rows ==> Announces(Apply(cfg, s, a), id)
  {
    StepKeepsFacts(cfg, s, a);
    if a.Record? {
      RecordingStep(cfg, s, a);
    } else {
      StepKeepsRows(cfg, s, a);
      SameIdsSameKeys(s.rows, Apply(cfg, s, a).rows);
    }
  }

  lemma BodiesStayAccountedFor(cfg: Config, s: State, a: Action)
    requires Enabled(s, a) && BusInv(s)
    ensures forall m :: m in Apply(cfg, s, a).bodies ==> m in Apply(cfg, s, a).unacked || InTable(Apply(cfg, s, a), m)
  {
    var s' := Apply(cfg, s, a);
    StepKeepsFacts(cfg, s, a);
    forall m | m in s'.bodies && m !in s'.unacked
      ensures InTable(s', m)
    {
      assert m in s.bodies && InTable(s, m);
    }
  }

  /** A delivery is new, or was there with the same message; only recording makes it Recorded. */
  lemma DeliveriesMove(cfg: Config, s: State, a: Action, d: nat)
    requires Enabled(s, a) && d in Apply(cfg, s, a).deliveries
    ensures var was, now := s.deliveries, Apply(cfg, s, a).deliveries;
            || (a == Deliver(d, now[d].msg) && now[d].outcome == Handling)
            || (d in was && now[d].msg == was[d].msg
                && (now[d].outcome == Recorded ==> was[d].outcome == Recorded || (a.Record? && a.delivery == d)))
  {}

  lemma DeliveriesStayAccountedFor(cfg: Config, s: State, a: Action)
    requires Enabled(s, a) && BusInv(s)
    ensures var s' := Apply(cfg, s, a);
            forall d :: d in s'.deliveries ==>
              && s'.deliveries[d].msg in s'.bodies
              && (s'.deliveries[d].outcome.Recorded? ==> InTable(s', s'.deliveries[d].msg))
  {
    var s' := Apply(cfg, s, a);
    StepKeepsFacts(cfg, s, a);
    if a.Record? { RecordingStep(cfg, s, a); }
    forall d | d in s'.deliveries
      ensures s'.deliveries[d].msg in s'.bodies
      ensures s'.deliveries[d].outcome.Recorded? ==> InTable(s', s'.deliveries[d].msg)
    {
      DeliveriesMove(cfg, s, a, d);
    }
  }

  lemma BusStep(cfg: Config, s: State, a: Action)
    requires Enabled(s, a) && BusInv(s)
    ensures BusInv(Apply(cfg, s, a))
  {
    RowsStayAccountedFor(cfg, s, a);
    BodiesStayAccountedFor(cfg, s, a);
    DeliveriesStayAccountedFor(cfg, s, a);
  }

  lemma {:induction false} BusRun(cfg: Config, s: State, acts: seq<Action>, end: State)
    requires BusInv(s) && Run(cfg, s, acts, end)
    ensures BusInv(end) && RowsKept(s.rows, end.rows)
    decreases |acts|
  {
    if acts != [] {
      BusStep(cfg, s, acts[0]);
      StepKeepsRows(cfg, s, acts[0]);
      BusRun(cfg, Apply(cfg, s, acts[0]), acts[1..], end);
    }
  }

  /** In every run: an acknowledged event has exactly one row under its key, and every row stands for an event
      that was published. */
  lemma NothingLostNothingDoubled(cfg: Config, start: int, acts: seq<Action>, s: State, m: nat)
    requires Run(cfg, Init(start), acts, s)
    requires m in s.bodies && m !in s.unacked
    ensures Recordable(s.bodies[m])
    ensures exists id :: && id in s.rows && s.rows[id].key == Key(s.bodies[m].value)
                         && forall j :: j in s.rows && s.rows[j].key == Key(s.bodies[m].value) ==> j == id
    ensures forall id :: id in s.rows ==>
              exists n :: n in s.bodies && s.bodies[n].Some? && FromEvent(s.rows[id], s.bodies[n].value)
  {
    BusRun(cfg, Init(start), acts, s);
    var id :| id in s.rows && s.rows[id].key == Key(s.bodies[m].value);
  }

  /** Acknowledged events without colons in their subject ids own a row each: its user, kind and payload subject
      are the event's, and two events share a row only when they are the same logical event. */
  lemma AckedEventsOwnTheirRows(cfg: Config, start: int, acts: seq<Action>, s: State, m: nat, n: nat)
    requires Run(cfg, Init(start), acts, s)
    requires m in s.bodies && m !in s.unacked && n in s.bodies && n !in s.unacked
    requires forall k :: k in s.bodies && s.bodies[k].Some? ==> ':' !in Subject(s.bodies[k].value)
    ensures Recordable(s.bodies[m]) && Recordable(s.bodies[n])
    ensures exists i, j :: && i in s.rows && j in s.rows
                           && s.rows[i].key == Key(s.bodies[m].value) && s.rows[j].key == Key(s.bodies[n].value)
                           && s.rows[i].user == User(s.bodies[m].value) && s.rows[i].kind == KindOf(s.bodies[m].value)
                           && (i == j <==> SameLogicalEvent(s.bodies[m].value, s.bodies[n].value))
  {
    NothingLostNothingDoubled(cfg, start, acts, s, m);
    NothingLostNothingDoubled(cfg, start, acts, s, n);
    var i :| i in s.rows && s.rows[i].key == Key(s.bodies[m].value);
    var j :| j in s.rows && s.rows[j].key == Key(s.bodies[n].value);
    var o :| o in s.bodies && s.bodies[o].Some? && FromEvent(s.rows[i], s.bodies[o].value);
    KeysIdentifyEvents(s.bodies[o].value, s.bodies[m].value);
    KeysIdentifyEvents(s.bodies[m].value, s.bodies[n].value);
    BusRun(cfg, Init(start), acts, s);
  }
}
