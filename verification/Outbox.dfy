/** The notification outbox as values: events, rows, dedupe keys, the retry schedule, and what each
    SQL statement does to the table. The classes and the protocol are built on these. */
module Outbox {
  import opened Common

  type Id = string

  datatype Kind = PollCompletedKind | IdeasReadyKind

  datatype Status = Pending | Sent | Failed

  datatype Payload =
    | PollPayload(pollId: string, surpriseRequestId: string)
    | IdeasPayload(requestId: string, ideaCount: int)

  datatype Event =
    | PollCompleted(pollId: string, surpriseRequestId: string, ownerUserId: string, completedAt: int)
    | IdeasReady(requestId: string, userId: string, ideaCount: int)

  datatype Row = Row(user: string, kind: Kind, payload: Payload, key: string, status: Status,
                     attempts: int, next: int, created: int, sentAt: Option<int>)

  type Table = map<Id, Row>

  // ---- Events and dedupe keys ----

  function Subject(e: Event): string {
    match e
    case PollCompleted(p, _, _, _) => p
    case IdeasReady(r, _, _) => r
  }

  function User(e: Event): string {
    match e
    case PollCompleted(_, _, u, _) => u
    case IdeasReady(_, u, _) => u
  }

  function KindOf(e: Event): Kind {
    if e.PollCompleted? then PollCompletedKind else IdeasReadyKind
  }

  function PayloadOf(e: Event): Payload {
    match e
    case PollCompleted(p, s, _, _) => PollPayload(p, s)
    case IdeasReady(r, _, n) => IdeasPayload(r, n)
  }

  function Key(e: Event): string {
    (if e.PollCompleted? then "poll_completed:" else "ideas_ready:") + Subject(e) + ":" + User(e)
  }

  predicate WellFormed(e: Event) {
    Subject(e) != "" && User(e) != ""
  }

  /** The two toOutbox functions; None is their error. */
  function ToOutbox(e: Event, now: int): Option<Row> {
    if !WellFormed(e) then None
    else Some(Row(User(e), KindOf(e), PayloadOf(e), Key(e), Pending, 0, now, now, None))
  }

  /** Two deliveries stand for one logical event when kind, subject and user agree. */
  predicate SameLogicalEvent(e: Event, f: Event) {
    KindOf(e) == KindOf(f) && Subject(e) == Subject(f) && User(e) == User(f)
  }

  lemma SplitAtColon(a: string, b: string, c: string, d: string)
    requires a + ":" + b == c + ":" + d
    requires |a| <= |c|
    ensures (a == c && b == d) || (|a| < |c| && c[|a|] == ':' && c[..|a|] == a && b == c[|a| + 1..] + ":" + d)
  {
    var s := a + ":" + b;
    assert s == c + ":" + d;
    assert s[..|a|] == a && s[|a|] == ':' && s[|a| + 1..] == b;
    if |a| == |c| {
      assert s[..|c|] == c && s[|c| + 1..] == d;
    } else {
      assert s[|a|] == c[|a|];
      assert c[..|a|] == s[..|a|];
      assert s[|a| + 1..] == c[|a| + 1..] + ":" + d;
    }
  }

  lemma KeyShape(e: Event, f: Event)
    ensures Key(e) == Key(f) <==>
            KindOf(e) == KindOf(f) && Subject(e) + ":" + User(e) == Subject(f) + ":" + User(f)
  {
    var pe := if e.PollCompleted? then "poll_completed:" else "ideas_ready:";
    var pf := if f.PollCompleted? then "poll_completed:" else "ideas_ready:";
    var re := Subject(e) + ":" + User(e);
    var rf := Subject(f) + ":" + User(f);
    assert Key(e) == pe + re;
    assert Key(f) == pf + rf;
    if KindOf(e) == KindOf(f) {
      assert Key(e)[|pe|..] == re;
      assert Key(f)[|pf|..] == rf;
    } else {
      assert Key(e)[0] == pe[0];
      assert Key(f)[0] == pf[0];
    }
  }

  /** Without colons in the subject ids the key identifies the logical event, both ways. */
  lemma KeysIdentifyEvents(e: Event, f: Event)
    requires ':' !in Subject(e) && ':' !in Subject(f)
    ensures Key(e) == Key(f) <==> SameLogicalEvent(e, f)
  {
    KeyShape(e, f);
    if Subject(e) + ":" + User(e) == Subject(f) + ":" + User(f) {
      if |Subject(e)| <= |Subject(f)| {
        SplitAtColon(Subject(e), User(e), Subject(f), User(f));
      } else {
        SplitAtColon(Subject(f), User(f), Subject(e), User(e));
      }
    }
  }

  ghost predicate SharesKeyWithAnother(e: Event) {
    exists f: Event :: WellFormed(f) && !SameLogicalEvent(e, f) && Key(f) == Key(e)
  }

  /** A colon that another split of "subject:user" could use: not the first character of the subject,
      not the last of the user. */
  predicate HasSpareColon(e: Event) {
    || (exists p :: 1 <= p < |Subject(e)| && Subject(e)[p] == ':')
    || (exists p :: 0 <= p < |User(e)| - 1 && User(e)[p] == ':')
  }

  function WithIds(e: Event, subject: string, user: string): (f: Event)
    ensures KindOf(f) == KindOf(e) && Subject(f) == subject && User(f) == user
  {
    match e
    case PollCompleted(_, s, _, t) => PollCompleted(subject, s, user, t)
    case IdeasReady(_, _, n) => IdeasReady(subject, user, n)
  }

  lemma SharedKeyNeedsSpareColon(e: Event, f: Event)
    requires WellFormed(f) && !SameLogicalEvent(e, f) && Key(f) == Key(e)
    ensures HasSpareColon(e)
  {
    KeyShape(e, f);
    if |Subject(e)| <= |Subject(f)| {
      SplitAtColon(Subject(e), User(e), Subject(f), User(f));
      assert User(e)[|Subject(f)| - |Subject(e)| - 1] == ':';
    } else {
      SplitAtColon(Subject(f), User(f), Subject(e), User(e));
      assert Subject(e)[|Subject(f)|] == ':';
    }
  }

  lemma SplitElsewhere(e: Event, subject: string, user: string)
    requires subject != "" && user != "" && subject != Subject(e)
    requires subject + ":" + user == Subject(e) + ":" + User(e)
    ensures SharesKeyWithAnother(e)
  {
    var f := WithIds(e, subject, user);
    KeyShape(e, f);
    assert WellFormed(f) && !SameLogicalEvent(e, f);
  }

  /** The exact condition under which two different events can fall on one row. */
  lemma SharedKeyIffSpareColon(e: Event)
    requires WellFormed(e)
    ensures SharesKeyWithAnother(e) <==> HasSpareColon(e)
  {
    var s, u := Subject(e), User(e);
    if SharesKeyWithAnother(e) {
      var f: Event :| WellFormed(f) && !SameLogicalEvent(e, f) && Key(f) == Key(e);
      SharedKeyNeedsSpareColon(e, f);
    } else if p :| 1 <= p < |s| && s[p] == ':' {
      var before, after := s[..p], s[p + 1..];
      assert s == before + ":" + after;
      assert before + ":" + (after + ":" + u) == s + ":" + u;
      SplitElsewhere(e, before, after + ":" + u);
    } else if p :| 0 <= p < |u| - 1 && u[p] == ':' {
      var before, after := u[..p], u[p + 1..];
      assert u == before + ":" + after;
      assert (s + ":" + before) + ":" + after == s + ":" + u;
      assert |s + ":" + before| > |s|;
      SplitElsewhere(e, s + ":" + before, after);
    }
  }

  // ---- The retry schedule ----

  function Pow2(n: nat): nat {
    if n == 0 then 1 else 2 * Pow2(n - 1)
  }

  const TWO_63 := 0x8000_0000_0000_0000
  const TWO_64 := 0x1_0000_0000_0000_0000

  /** Two's-complement int64, the representation of time.Duration. */
  function Wrap64(x: int): int {
    (x + TWO_63) % TWO_64 - TWO_63
  }

  function Shift(attempts: int): nat {
    var a := if attempts < 1 then 1 else attempts;
    if a - 1 > 16 then 16 else a - 1
  }

  function Backoff(base: int, attempts: int): int {
    Wrap64(base * Wrap64(Pow2(Shift(attempts))))
  }

  lemma {:induction false} Pow2Monotone(m: nat, n: nat)
    requires m <= n
    ensures Pow2(m) <= Pow2(n)
    decreases n
  {
    if m < n { Pow2Monotone(m, n - 1); }
  }

  lemma Pow2Of16()
    ensures Pow2(16) == 0x1_0000
  {
    assert Pow2(4) == 16;
    assert Pow2(8) == 256;
    assert Pow2(12) == 4096;
  }

  lemma WrapIsIdentity(x: int)
    ensures -TWO_63 <= x < TWO_63 <==> Wrap64(x) == x
  {}

  lemma ScaleBetween(base: int, p: int, q: int)
    requires 0 <= base && 1 <= p <= q
    ensures base <= base * p <= base * q
  {
    assert base * p == base + base * (p - 1);
    assert base * q == base * p + base * (q - p);
  }

  lemma BackoffIsExact(base: int, attempts: int)
    requires 0 < base < 0x8000_0000_0000
    ensures Backoff(base, attempts) == base * Pow2(Shift(attempts))
    ensures base <= Backoff(base, attempts) <= base * 0x1_0000 < TWO_63
  {
    var p: int := Pow2(Shift(attempts));
    assert 1 <= p <= 0x1_0000 by {
      Pow2Of16();
      Pow2Monotone(0, Shift(attempts));
      Pow2Monotone(Shift(attempts), 16);
    }
    var product := base * p;
    ScaleBetween(base, p, 0x1_0000);
    WrapIsIdentity(p);
    WrapIsIdentity(product);
  }

  /** The first delay is the base itself, the last one 2^16 times as long. */
  lemma FirstAndLastBackoff(base: int, attempts: int)
    requires 0 < base < 0x8000_0000_0000
    ensures attempts <= 1 ==> Backoff(base, attempts) == base
    ensures attempts >= 17 ==> Backoff(base, attempts) == base * 0x1_0000
  {
    BackoffIsExact(base, attempts);
    Pow2Of16();
    assert Pow2(0) == 1 && base * 1 == base;
    hide Backoff, Pow2;
  }

  /** The delay never overflows a Duration exactly for base delays under 2^47 ns. */
  lemma BackoffFitsIff(base: int)
    requires 0 < base < TWO_63
    ensures base < 0x8000_0000_0000 <==>
            forall attempts: int :: Backoff(base, attempts) == base * Pow2(Shift(attempts))
  {
    if base < 0x8000_0000_0000 {
      forall attempts: int
        ensures Backoff(base, attempts) == base * Pow2(Shift(attempts))
      {
        BackoffIsExact(base, attempts);
      }
    } else {
      Pow2Of16();
      assert Shift(17) == 16;
      WrapIsIdentity(0x1_0000);
      WrapIsIdentity(base * 0x1_0000);
      assert Backoff(base, 17) != base * Pow2(Shift(17));
    }
  }

  /** Each attempt doubles the delay until the sixteenth doubling; after that it stays put. */
  lemma BackoffDoublesThenStays(base: int, attempts: int)
    requires 0 < base < 0x8000_0000_0000 && 1 <= attempts
    ensures attempts <= 16 ==> Backoff(base, attempts + 1) == 2 * Backoff(base, attempts)
    ensures attempts > 16 ==> Backoff(base, attempts + 1) == Backoff(base, attempts)
    ensures Backoff(base, attempts) <= Backoff(base, attempts + 1)
  {
    var p, q: int := Pow2(Shift(attempts)), Pow2(Shift(attempts + 1));
    assert q == if attempts <= 16 then 2 * p else p;
    assert base * q == if attempts <= 16 then 2 * (base * p) else base * p by { TwiceTheProduct(base, p); }
    BackoffIsExact(base, attempts);
    BackoffIsExact(base, attempts + 1);
  }

  lemma TwiceTheProduct(base: int, p: int)
    ensures base * (2 * p) == 2 * (base * p)
  {}

  // ---- What each statement does to the table ----

  predicate HasKey(t: Table, key: string) {
    exists id :: id in t && t[id].key == key
  }

  predicate UniqueKeys(t: Table) {
    forall i, j :: i in t && j in t && t[i].key == t[j].key ==> i == j
  }

  /** INSERT ... ON CONFLICT (dedupe_key) DO NOTHING. */
  function Enqueued(t: Table, id: Id, row: Row): Table {
    if HasKey(t, row.key) then t else t[id := row.(status := Pending, attempts := 0, sentAt := None)]
  }

  predicate Due(t: Table, id: Id, now: int) {
    id in t && t[id].status == Pending && t[id].next <= now
  }

  function DueUnlocked(t: Table, now: int, locked: set<Id>): set<Id> {
    set id | id in t && id !in locked && Due(t, id, now)
  }

  /** What the claiming subselect may pick: the `limit` earliest due rows no other statement holds. */
  ghost predicate ClaimPick(t: Table, now: int, limit: nat, locked: set<Id>, ids: set<Id>) {
    && ids <= DueUnlocked(t, now, locked)
    && |ids| <= limit
    && (|ids| < limit ==> ids == DueUnlocked(t, now, locked))
    && (forall i, j :: i in ids && j in DueUnlocked(t, now, locked) && j !in ids ==> t[i].next <= t[j].next)
  }

  function Leased(t: Table, ids: set<Id>, until: int): Table {
    map id | id in t :: if id in ids then t[id].(next := until) else t[id]
  }

  function WithSent(t: Table, id: Id, at: int): Table {
    if id in t then t[id := t[id].(status := Sent, sentAt := Some(at))] else t
  }

  function WithFailed(t: Table, id: Id): Table {
    if id in t then t[id := t[id].(status := Failed)] else t
  }

  function Rescheduled(t: Table, id: Id, attempts: int, next: int): Table {
    if id in t then t[id := t[id].(status := Pending, attempts := attempts, next := next)] else t
  }

  // ---- How a pass over the devices ends ----

  datatype Platform = IOS | Android

  datatype DeviceKey = DeviceKey(platform: Platform, token: string)

  datatype Device = Device(id: Id, user: string, version: string, registeredAt: int, lastSeenAt: int, active: bool)

  type Devices = map<DeviceKey, Device>

  datatype PushResult = Delivered | InvalidToken | Transient

  function ActiveFor(ds: Devices, user: string): set<DeviceKey> {
    set k | k in ds && ds[k].active && ds[k].user == user
  }

  function Upserted(ds: Devices, k: DeviceKey, freshId: Id, user: string, version: string, now: int): Devices {
    if k in ds then ds[k := ds[k].(user := user, version := version, lastSeenAt := now, active := true)]
    else ds[k := Device(freshId, user, version, now, now, true)]
  }

  function Deactivated(ds: Devices, token: string): Devices {
    map k | k in ds :: if k.token == token then ds[k].(active := false) else ds[k]
  }

  datatype Config = Config(lease: int, batch: nat, maxAttempts: int, base: int) {
    /** What withDefaults guarantees. */
    predicate Valid() {
      lease > 0 && batch > 0 && maxAttempts > 0 && base > 0
    }
  }

  datatype Verdict = MarkSent | MarkFailed | Retry(attempts: int)

  /** A pass that ended without a transient error is final; a transient one retries until attempts run out. */
  function VerdictOf(cfg: Config, attempts: int, transient: bool): Verdict {
    if !transient then MarkSent
    else if attempts + 1 >= cfg.maxAttempts then MarkFailed
    else Retry(attempts + 1)
  }

  function Finalised(t: Table, cfg: Config, id: Id, v: Verdict, now: int): Table {
    match v
    case MarkSent => WithSent(t, id, now)
    case MarkFailed => WithFailed(t, id)
    case Retry(a) => Rescheduled(t, id, a, now + Backoff(cfg.base, a))
  }
}
