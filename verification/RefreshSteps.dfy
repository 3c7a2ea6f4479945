/** Refresh calls that overlap: reading a session and writing it back are separate steps, any number of calls at once,
    in any order with sign-ins, revocations and lapses. What every interleaving keeps, and exactly when an overlap can
    honour a token again or bring an ended session back. */
module RefreshSteps {
  import opened Common
  import opened RefreshSessions

  /** A call between reading its session and its next step: writing the rotated secret, or deleting the session. */
  datatype Pending = Rotating(t: string, k: Token, sess: Session, readAt: nat) | Rejecting(sid: string)

  /** A token traded for a new pair, with the steps at which its call read and wrote. */
  datatype Honour = Honour(t: string, readAt: nat, wroteAt: nat)

  /** `clock` counts steps, `drawn` the secrets used so far and their sessions, `past` those no longer stored,
      `expiry` the expiry each session began with. */
  datatype World = World(clock: nat, now: int, sessions: Sessions, pending: map<nat, Pending>,
                         drawn: map<string, string>, past: set<string>, expiry: map<string, int>, honoured: seq<Honour>)

  datatype Step =
    | Advance(to: int)
    | SignIn(user: string, device: string, k: Token)
    | Read(c: nat, t: string)
    | Write(c: nat, newSecret: string, f: Fault)
    | Delete(c: nat)
    | Drop(sid: string)
    | Abandon(c: nat)

  predicate Enabled(w: World, a: Step) {
    match a
    case Advance(to) => w.now <= to
    case SignIn(_, _, k) => WellFormed(k) && k.sid !in w.expiry && k.secret !in w.drawn
    case Read(c, _) => c !in w.pending
    case Write(c, newSecret, _) => c in w.pending && w.pending[c].Rotating? && newSecret !in w.drawn
    case Delete(c) => c in w.pending && w.pending[c].Rejecting?
    case Drop(_) => true
    case Abandon(c) => c in w.pending
  }

  /** The secret a session holds is in the past from now on. */
  function Passed(w: World, sid: string): set<string> {
    if sid in w.sessions then w.past + {w.sessions[sid].refreshHash.secret} else w.past
  }

  function Deleted(w: World, sid: string): World {
    w.(past := Passed(w, sid), sessions := w.sessions - {sid})
  }

  /** What RefreshToken does once it has read the session. */
  function AfterRead(w: World, t: string): Option<Pending> {
    var k := SplitRefresh(t);
    if k.None? || k.value.sid !in w.sessions then None
    else if Accepts(w.sessions, t, w.now) then Some(Rotating(t, k.value, w.sessions[k.value.sid], w.clock))
    else Some(Rejecting(k.value.sid))
  }

  function Apply(ttl: int, w: World, a: Step): World
    requires Enabled(w, a)
  {
    var w0 := w.(clock := w.clock + 1);
    match a
    case Advance(to) => w0.(now := to)
    case SignIn(user, device, k) =>
      w0.(sessions := SignedIn(w.sessions, user, device, k, w.now, ttl, NoFault), drawn := w.drawn[k.secret := k.sid],
          expiry := w.expiry[k.sid := w.now + ttl], past := Passed(w, k.sid))
    case Read(c, t) =>
      if AfterRead(w, t).Some? then w0.(pending := w.pending[c := AfterRead(w, t).value]) else w0
    case Write(c, newSecret, f) =>
      var p := w.pending[c];
      var sess := p.sess.(refreshHash := Digest(newSecret), issuedAt := w.now);
      var written := w0.(sessions := w.sessions[p.k.sid := sess],
                         past := Passed(w, p.k.sid) + {p.k.secret}, drawn := w.drawn[newSecret := p.k.sid]);
      (if Writes(f) then written else w0).(
        pending := w.pending - {c},
        honoured := if f == NoFault then w.honoured + [Honour(p.t, p.readAt, w.clock)] else w.honoured)
    case Delete(c) => Deleted(w0, w.pending[c].sid).(pending := w.pending - {c})
    case Drop(sid) => Deleted(w0, sid)
    case Abandon(c) => w0.(pending := w.pending - {c})
  }

  predicate Run(ttl: int, w: World, acts: seq<Step>, end: World)
    decreases |acts|
  {
    if acts == [] then end == w else Enabled(w, acts[0]) && Run(ttl, Apply(ttl, w, acts[0]), acts[1..], end)
  }

  function Start(now: int): World {
    World.World(0, now, map[], map[], map[], {}, map[], [])
  }

  /** A stored secret was drawn for its session and is not in the past; sessions keep the expiry they began with. */
  ghost predicate SessionsOk(m: Sessions, drawn: map<string, string>, past: set<string>, expiry: map<string, int>) {
    && (forall secret :: secret in past ==> secret in drawn)
    && (forall sid :: sid in m ==>
          var secret := m[sid].refreshHash.secret; secret in drawn && drawn[secret] == sid && secret !in past)
    && (forall sid :: sid in m ==> sid in expiry && m[sid].expiresAt == expiry[sid])
  }

  ghost predicate PendingOk(p: Pending, clock: nat, drawn: map<string, string>, expiry: map<string, int>) {
    p.Rotating? ==>
      && p.readAt < clock && SplitRefresh(p.t) == Some(p.k) && p.k.secret in drawn && drawn[p.k.secret] == p.k.sid
      && p.k.sid in expiry && p.sess.expiresAt == expiry[p.k.sid]
  }

  /** A call that waits to write a token already honoured read it before that was written. */
  ghost predicate ReadBefore(pending: map<nat, Pending>, honoured: seq<Honour>) {
    forall c, i :: c in pending && 0 <= i < |honoured| && pending[c].Rotating? && pending[c].t == honoured[i].t ==>
      pending[c].readAt < honoured[i].wroteAt
  }

  ghost predicate Overlap(a: Honour, b: Honour) {
    a.readAt < b.wroteAt && b.readAt < a.wroteAt
  }

  ghost predicate HonouredOk(honoured: seq<Honour>, clock: nat, past: set<string>) {
    && (forall i :: 0 <= i < |honoured| ==>
          && honoured[i].readAt < honoured[i].wroteAt < clock
          && SplitRefresh(honoured[i].t).Some? && SplitRefresh(honoured[i].t).value.secret in past)
    && (forall i, j :: 0 <= i < j < |honoured| && honoured[i].t == honoured[j].t ==> Overlap(honoured[i], honoured[j]))
  }

  ghost predicate Inv(w: World) {
    && SessionsOk(w.sessions, w.drawn, w.past, w.expiry)
    && (forall c :: c in w.pending ==> PendingOk(w.pending[c], w.clock, w.drawn, w.expiry))
    && ReadBefore(w.pending, w.honoured)
    && HonouredOk(w.honoured, w.clock, w.past)
  }

  lemma InvRead(ttl: int, w: World, c: nat, t: string)
    requires Inv(w) && Enabled(w, Read(c, t))
    ensures Inv(Apply(ttl, w, Read(c, t)))
  {
    hide SplitRefresh;
    var w' := Apply(ttl, w, Read(c, t));
    forall d | d in w'.pending
      ensures PendingOk(w'.pending[d], w'.clock, w'.drawn, w'.expiry)
    {
      if d in w.pending && w'.pending[d] == w.pending[d] { assert PendingOk(w.pending[d], w.clock, w.drawn, w.expiry); }
    }
  }

  lemma PendingStays(w: World, w': World)
    requires forall c :: c in w.pending ==> PendingOk(w.pending[c], w.clock, w.drawn, w.expiry)
    requires w.clock <= w'.clock
    requires forall x :: x in w.drawn ==> x in w'.drawn && w'.drawn[x] == w.drawn[x]
    requires forall c :: c in w'.pending ==> c in w.pending && w'.pending[c] == w.pending[c]
    requires forall sid :: sid in w.expiry ==> sid in w'.expiry && w'.expiry[sid] == w.expiry[sid]
    ensures forall c :: c in w'.pending ==> PendingOk(w'.pending[c], w'.clock, w'.drawn, w'.expiry)
  {
    hide SplitRefresh;
    forall c | c in w'.pending
      ensures PendingOk(w'.pending[c], w'.clock, w'.drawn, w'.expiry)
    {
      assert PendingOk(w.pending[c], w.clock, w.drawn, w.expiry);
    }
  }

  lemma HonouredStay(honoured: seq<Honour>, clock: nat, past: set<string>, clock': nat, past': set<string>)
    requires HonouredOk(honoured, clock, past) && clock <= clock' && past <= past'
    ensures HonouredOk(honoured, clock', past')
  {
    hide SplitRefresh;
  }

  lemma HonouredMore(honoured: seq<Honour>, clock: nat, past: set<string>, h: Honour)
    requires HonouredOk(honoured, clock, past) && h.readAt < h.wroteAt == clock
    requires SplitRefresh(h.t).Some? && SplitRefresh(h.t).value.secret in past
    requires forall i :: 0 <= i < |honoured| && honoured[i].t == h.t ==> h.readAt < honoured[i].wroteAt
    ensures HonouredOk(honoured + [h], clock + 1, past)
  {
    hide SplitRefresh;
  }

  lemma DeletedOk(w: World, sid: string)
    requires SessionsOk(w.sessions, w.drawn, w.past, w.expiry)
    ensures SessionsOk(w.sessions - {sid}, w.drawn, Passed(w, sid), w.expiry)
  {
  }

  lemma StoredOk(w: World, sid: string, sess: Session, gone: set<string>)
    requires SessionsOk(w.sessions, w.drawn, w.past, w.expiry) && sess.refreshHash.secret !in w.drawn
    requires forall x :: x in gone ==> x in w.drawn && w.drawn[x] == sid
    requires sid in w.expiry && sess.expiresAt == w.expiry[sid]
    ensures SessionsOk(w.sessions[sid := sess],
                       w.drawn[sess.refreshHash.secret := sid], Passed(w, sid) + gone, w.expiry)
  {
  }

  lemma InvWrite(ttl: int, w: World, c: nat, newSecret: string, f: Fault)
    requires Inv(w) && Enabled(w, Write(c, newSecret, f))
    ensures Inv(Apply(ttl, w, Write(c, newSecret, f)))
  {
    var w', p := Apply(ttl, w, Write(c, newSecret, f)), w.pending[c];
    assert PendingOk(p, w.clock, w.drawn, w.expiry);
    PendingStays(w, w');
    StoredOk(w, p.k.sid, p.sess.(refreshHash := Digest(newSecret), issuedAt := w.now), {p.k.secret});
    HonouredStay(w.honoured, w.clock, w.past, w.clock, w'.past);
    HonouredStay(w.honoured, w.clock, w.past, w'.clock, w'.past);
    var h := Honour(p.t, p.readAt, w.clock);
    if f == NoFault { HonouredMore(w.honoured, w.clock, w'.past, h); }
    assert ReadBefore(w'.pending, w'.honoured) by { ReadBeforeMore(w, w', h); }
    hide SplitRefresh, SessionsOk, HonouredOk, PendingOk, ReadBefore, Passed;
  }

  /** A call still waiting read before this step. */
  lemma ReadBeforeMore(w: World, w': World, h: Honour)
    requires ReadBefore(w.pending, w.honoured) && h.wroteAt == w.clock
    requires forall d :: d in w.pending ==> PendingOk(w.pending[d], w.clock, w.drawn, w.expiry)
    requires forall d :: d in w'.pending ==> d in w.pending && w'.pending[d] == w.pending[d]
    requires w'.honoured == w.honoured || w'.honoured == w.honoured + [h]
    ensures ReadBefore(w'.pending, w'.honoured)
  {
    hide SplitRefresh;
    forall d, i | d in w'.pending && 0 <= i < |w'.honoured| && w'.pending[d].Rotating?
                  && w'.pending[d].t == w'.honoured[i].t
      ensures w'.pending[d].readAt < w'.honoured[i].wroteAt
    {
      assert PendingOk(w.pending[d], w.clock, w.drawn, w.expiry);
    }
  }

  lemma InvSignIn(ttl: int, w: World, a: Step)
    requires Inv(w) && a.SignIn? && Enabled(w, a)
    ensures Inv(Apply(ttl, w, a))
  {
    var w', sid := Apply(ttl, w, a), a.k.sid;
    PendingStays(w, w');
    HonouredStay(w.honoured, w.clock, w.past, w'.clock, w'.past);
    var begun := w.(expiry := w.expiry[sid := w.now + ttl]);
    assert SessionsOk(begun.sessions, begun.drawn, begun.past, begun.expiry);
    StoredOk(begun, sid, w'.sessions[sid], {});
    assert Passed(begun, sid) + {} == w'.past;
    hide SplitRefresh, SessionsOk, HonouredOk, PendingOk, ReadBefore, Passed;
  }

  /** Deleting a session, for whatever reason. */
  lemma InvDelete(ttl: int, w: World, a: Step)
    requires Inv(w) && (a.Delete? || a.Drop?) && Enabled(w, a)
    ensures Inv(Apply(ttl, w, a))
  {
    var w' := Apply(ttl, w, a);
    PendingStays(w, w');
    HonouredStay(w.honoured, w.clock, w.past, w'.clock, w'.past);
    DeletedOk(w, if a.Delete? then w.pending[a.c].sid else a.sid);
    hide SplitRefresh, SessionsOk, HonouredOk, PendingOk, Passed;
  }

  lemma InvIdle(ttl: int, w: World, a: Step)
    requires Inv(w) && (a.Advance? || a.Abandon?) && Enabled(w, a)
    ensures Inv(Apply(ttl, w, a))
  {
    var w' := Apply(ttl, w, a);
    PendingStays(w, w');
    HonouredStay(w.honoured, w.clock, w.past, w'.clock, w'.past);
    hide SplitRefresh, SessionsOk, HonouredOk, PendingOk;
  }

  lemma InvStep(ttl: int, w: World, a: Step)
    requires Inv(w) && Enabled(w, a)
    ensures Inv(Apply(ttl, w, a))
  {
    hide Inv, Apply;
    match a
    case Read(c, t) => InvRead(ttl, w, c, t);
    case Write(c, newSecret, f) => InvWrite(ttl, w, c, newSecret, f);
    case SignIn(_, _, _) => InvSignIn(ttl, w, a);
    case Delete(_) => InvDelete(ttl, w, a);
    case Drop(_) => InvDelete(ttl, w, a);
    case Advance(_) => InvIdle(ttl, w, a);
    case Abandon(_) => InvIdle(ttl, w, a);
  }

  lemma {:induction false} InvRun(ttl: int, w: World, acts: seq<Step>, end: World)
    requires Run(ttl, w, acts, end) && Inv(w)
    ensures Inv(end)
    decreases |acts|
  {
    hide Apply, Enabled, Inv;
    if acts != [] {
      InvStep(ttl, w, acts[0]);
      InvRun(ttl, Apply(ttl, w, acts[0]), acts[1..], end);
    }
  }

  /** In every interleaving two calls that honour one token overlap: each read the session before the other wrote it; a
      call that begins after the token's rotation never does. And no session's expiry ever moves. */
  lemma HonouredTwiceOnlyByOverlap(ttl: int, start: int, acts: seq<Step>, w: World)
    requires Run(ttl, Start(start), acts, w)
    ensures forall i, j :: 0 <= i < j < |w.honoured| && w.honoured[i].t == w.honoured[j].t ==>
              Overlap(w.honoured[i], w.honoured[j])
    ensures forall i :: 0 <= i < |w.honoured| ==> !Accepts(w.sessions, w.honoured[i].t, w.now)
    ensures forall sid :: sid in w.sessions ==> sid in w.expiry && w.sessions[sid].expiresAt == w.expiry[sid]
  {
    InvRun(ttl, Start(start), acts, w);
  }

  function SessionOf(h: Honour): Option<string> {
    if SplitRefresh(h.t).Some? then Some(SplitRefresh(h.t).value.sid) else None
  }

  /** So calls that keep apart, as under a lock per session, honour each token at most once. */
  lemma CallsApartHonourOnce(ttl: int, start: int, acts: seq<Step>, w: World)
    requires Run(ttl, Start(start), acts, w)
    requires forall i, j :: 0 <= i < j < |w.honoured| && SessionOf(w.honoured[i]) == SessionOf(w.honoured[j]) ==>
               !Overlap(w.honoured[i], w.honoured[j])
    ensures forall i, j :: 0 <= i < j < |w.honoured| ==> w.honoured[i].t != w.honoured[j].t
  {
    HonouredTwiceOnlyByOverlap(ttl, start, acts, w);
  }

  // ---- A call alone ----

  /** What a call does next, if it has a next step: write or delete. */
  function Rest(w: World, c: nat, newSecret: string, f: Fault): seq<Step> {
    if c !in w.pending then []
    else if w.pending[c].Rotating? then [Write(c, newSecret, f)]
    else [Delete(c)]
  }

  /** A call that nothing comes in between leaves the sessions as RefreshToken does, and honours its token exactly when
      that hands out a new one. */
  lemma AloneIsRefreshToken(ttl: int, w: World, c: nat, t: string, newSecret: string, f: Fault) returns (end: World)
    requires c !in w.pending && newSecret !in w.drawn && f != LookupFails
    ensures Run(ttl, w, [Read(c, t)] + Rest(Apply(ttl, w, Read(c, t)), c, newSecret, f), end)
    ensures end.sessions == RefreshedSessions(w.sessions, t, newSecret, w.now, f) && end.pending == w.pending
    ensures var h := Honour(t, w.clock, w.clock + 1);
            end.honoured == w.honoured + if RefreshReply(w.sessions, t, newSecret, w.now, f).Pair? then [h] else []
  {
    var w1 := Apply(ttl, w, Read(c, t));
    OneStep(ttl, w, Read(c, t));
    NextStep(ttl, w, c, t, newSecret, f);
    hide *;
    var rest := Rest(w1, c, newSecret, f);
    if rest == [] {
      end := w1;
      assert [Read(c, t)] + [] == [Read(c, t)];
    } else {
      end := Apply(ttl, w1, rest[0]);
      OneStep(ttl, w1, rest[0]);
      assert rest == [rest[0]];
      RunOn(ttl, w, [Read(c, t)], w1, rest, end);
    }
  }

  lemma NextStep(ttl: int, w: World, c: nat, t: string, newSecret: string, f: Fault)
    requires c !in w.pending && newSecret !in w.drawn && f != LookupFails
    ensures var w1 := Apply(ttl, w, Read(c, t));
            var rest := Rest(w1, c, newSecret, f);
            && |rest| <= 1 && (rest != [] ==> Enabled(w1, rest[0]))
            && var end := if rest == [] then w1 else Apply(ttl, w1, rest[0]);
               && end.sessions == RefreshedSessions(w.sessions, t, newSecret, w.now, f) && end.pending == w.pending
               && end.honoured ==
                  w.honoured + if RefreshReply(w.sessions, t, newSecret, w.now, f).Pair?
                               then [Honour(t, w.clock, w.clock + 1)] else []
  {
    hide SplitRefresh;
    AddedThenRemoved(w.pending, c, AfterRead(w, t));
    if AfterRead(w, t).Some? {
      hide Accepts;
      var w1 := w.(clock := w.clock + 1, pending := w.pending[c := AfterRead(w, t).value]);
      assert Apply(ttl, w, Read(c, t)) == w1;
      if AfterRead(w, t).value.Rotating? {
        WriteMeans(ttl, w1, c, newSecret, f);
      } else {
        DeleteMeans(ttl, w1, c);
      }
      hide Apply;
    }
  }

  lemma AddedThenRemoved(pending: map<nat, Pending>, c: nat, p: Option<Pending>)
    requires c !in pending
    ensures p.Some? ==> pending[c := p.value] - {c} == pending
  {}

  lemma WriteMeans(ttl: int, w: World, c: nat, newSecret: string, f: Fault)
    requires Enabled(w, Write(c, newSecret, f))
    ensures var end, p := Apply(ttl, w, Write(c, newSecret, f)), w.pending[c];
      && end.pending == w.pending - {c}
      && end.sessions == (if Writes(f) then w.sessions[p.k.sid := p.sess.(refreshHash := Digest(newSecret),
                                                                          issuedAt := w.now)]
                          else w.sessions)
      && end.honoured == w.honoured + if f == NoFault then [Honour(p.t, p.readAt, w.clock)] else []
  {}

  lemma DeleteMeans(ttl: int, w: World, c: nat)
    requires Enabled(w, Delete(c))
    ensures var end, p := Apply(ttl, w, Delete(c)), w.pending[c];
      end.pending == w.pending - {c} && end.sessions == w.sessions - {p.sid} && end.honoured == w.honoured
  {}

  // ---- What an overlap can bring back, exactly ----

  /** A call has read the session, found that this token fits, and has yet to write. */
  ghost predicate AwaitsWrite(w: World, t: string) {
    exists c :: c in w.pending && w.pending[c].Rotating? && w.pending[c].t == t
  }

  ghost predicate AwaitsWriteTo(w: World, sid: string) {
    exists c :: c in w.pending && w.pending[c].Rotating? && w.pending[c].k.sid == sid
  }

  /** The token was stored once and is no longer. */
  predicate Spent(w: World, t: string) {
    SplitRefresh(t).Some? && SplitRefresh(t).value.secret in w.past
  }

  ghost predicate CanBeHonouredFrom(ttl: int, w: World, t: string) {
    exists acts, end ::
      Run(ttl, w, acts, end) && exists i :: |w.honoured| <= i < |end.honoured| && end.honoured[i].t == t
  }

  ghost predicate CanBeLiveFrom(ttl: int, w: World, sid: string) {
    exists acts, end :: Run(ttl, w, acts, end) && sid in end.sessions
  }

  lemma SpentStep(ttl: int, w: World, a: Step, t: string)
    requires Inv(w) && Enabled(w, a) && Spent(w, t) && !AwaitsWrite(w, t)
    ensures var w' := Apply(ttl, w, a);
      && Spent(w', t) && !AwaitsWrite(w', t)
      && (w'.honoured == w.honoured || exists h: Honour :: h.t != t && w'.honoured == w.honoured + [h])
  {
    hide SplitRefresh, PendingOk, ReadBefore, HonouredOk;
    if a.Write? && a.f == NoFault {
      var h := Honour(w.pending[a.c].t, w.pending[a.c].readAt, w.clock);
      assert h.t != t && Apply(ttl, w, a).honoured == w.honoured + [h];
    }
  }

  lemma {:induction false} SpentRun(ttl: int, w: World, acts: seq<Step>, end: World, t: string)
    requires Inv(w) && Run(ttl, w, acts, end) && Spent(w, t) && !AwaitsWrite(w, t)
    ensures |w.honoured| <= |end.honoured|
    ensures forall i :: |w.honoured| <= i < |end.honoured| ==> end.honoured[i].t != t
    ensures forall i :: 0 <= i < |w.honoured| ==> end.honoured[i] == w.honoured[i]
    decreases |acts|
  {
    hide Apply, Enabled, Inv, Spent, AwaitsWrite;
    if acts != [] {
      SpentStep(ttl, w, acts[0], t);
      InvStep(ttl, w, acts[0]);
      SpentRun(ttl, Apply(ttl, w, acts[0]), acts[1..], end, t);
    }
  }

  lemma {:induction false} LongerThanAll(s: set<string>) returns (n: nat)
    ensures forall x :: x in s ==> |x| < n
    decreases s
  {
    n := 0;
    if s != {} {
      var x :| x in s;
      n := LongerThanAll(s - {x});
      if n <= |x| { n := |x| + 1; }
    }
  }

  lemma SomeNewSecret(w: World) returns (x: string)
    ensures x !in w.drawn && x != ""
  {
    var n := LongerThanAll(w.drawn.Keys);
    x := seq(n + 1, _ => 'a');
  }

  lemma OneStep(ttl: int, w: World, a: Step)
    requires Enabled(w, a)
    ensures Run(ttl, w, [a], Apply(ttl, w, a))
  {
    hide Apply, Enabled;
    assert [a][1..] == [];
    assert Run(ttl, Apply(ttl, w, a), [], Apply(ttl, w, a));
  }

  /** In every reachable state a token that was honoured can be honoured again if and only if some call has read its
      session while it still fitted and has yet to write. */
  lemma HonouredAgainIffAwaited(ttl: int, start: int, acts: seq<Step>, w: World, i: nat)
    requires Run(ttl, Start(start), acts, w) && i < |w.honoured|
    ensures CanBeHonouredFrom(ttl, w, w.honoured[i].t) <==> AwaitsWrite(w, w.honoured[i].t)
  {
    InvRun(ttl, Start(start), acts, w);
    hide SplitRefresh;
    var t := w.honoured[i].t;
    assert Spent(w, t);
    hide Apply, Enabled, Inv, Run;
    if AwaitsWrite(w, t) {
      var c :| c in w.pending && w.pending[c].Rotating? && w.pending[c].t == t;
      WriteHonours(ttl, w, c);
    } else if CanBeHonouredFrom(ttl, w, t) {
      var more, end :| Run(ttl, w, more, end)
                       && exists j :: |w.honoured| <= j < |end.honoured| && end.honoured[j].t == t;
      SpentRun(ttl, w, more, end, t);
      assert false;
    }
  }

  lemma WriteHonours(ttl: int, w: World, c: nat)
    requires c in w.pending && w.pending[c].Rotating?
    ensures CanBeHonouredFrom(ttl, w, w.pending[c].t) && CanBeLiveFrom(ttl, w, w.pending[c].k.sid)
  {
    var newSecret := SomeNewSecret(w);
    var a := Write(c, newSecret, NoFault);
    var end := Apply(ttl, w, a);
    OneStep(ttl, w, a);
    assert end.honoured[|w.honoured|].t == w.pending[c].t;
  }

  lemma GoneStep(ttl: int, w: World, a: Step, sid: string)
    requires Enabled(w, a) && sid in w.expiry && sid !in w.sessions && !AwaitsWriteTo(w, sid)
    ensures var w' := Apply(ttl, w, a); sid in w'.expiry && sid !in w'.sessions && !AwaitsWriteTo(w', sid)
  {
    hide SplitRefresh;
  }

  lemma {:induction false} GoneRun(ttl: int, w: World, acts: seq<Step>, end: World, sid: string)
    requires Run(ttl, w, acts, end) && sid in w.expiry && sid !in w.sessions && !AwaitsWriteTo(w, sid)
    ensures sid !in end.sessions
    decreases |acts|
  {
    hide Apply, Enabled, AwaitsWriteTo;
    if acts != [] {
      GoneStep(ttl, w, acts[0], sid);
      GoneRun(ttl, Apply(ttl, w, acts[0]), acts[1..], end, sid);
    }
  }

  /** In every state a session that has ended can come back if and only if some call has read it and has yet to write:
      the write does not look whether the session is still there. */
  lemma EndedComesBackIffAwaited(ttl: int, w: World, sid: string)
    requires sid in w.expiry && sid !in w.sessions
    ensures CanBeLiveFrom(ttl, w, sid) <==> AwaitsWriteTo(w, sid)
  {
    hide Apply, Enabled, Run;
    if AwaitsWriteTo(w, sid) {
      var c :| c in w.pending && w.pending[c].Rotating? && w.pending[c].k.sid == sid;
      WriteHonours(ttl, w, c);
    } else if CanBeLiveFrom(ttl, w, sid) {
      var more, end :| Run(ttl, w, more, end) && sid in end.sessions;
      GoneRun(ttl, w, more, end, sid);
      assert false;
    }
  }

  // ---- Such states are reached ----

  lemma TwoSteps(ttl: int, w: World, a: Step, b: Step)
    requires Enabled(w, a) && Enabled(Apply(ttl, w, a), b)
    ensures Run(ttl, w, [a, b], Apply(ttl, Apply(ttl, w, a), b))
  {
    OneStep(ttl, Apply(ttl, w, a), b);
    assert [a, b][1..] == [b];
    hide Apply, Enabled;
  }

  lemma {:induction false} RunOn(ttl: int, w: World, xs: seq<Step>, mid: World, ys: seq<Step>, end: World)
    requires Run(ttl, w, xs, mid) && Run(ttl, mid, ys, end)
    ensures Run(ttl, w, xs + ys, end)
    decreases |xs|
  {
    hide Apply, Enabled;
    if xs == [] {
      assert xs + ys == ys;
    } else {
      assert (xs + ys)[1..] == xs[1..] + ys;
      RunOn(ttl, Apply(ttl, w, xs[0]), xs[1..], mid, ys, end);
    }
  }

  /** One sign-in, and one call that reads its session. */
  function Opening(user: string, device: string, k: Token): seq<Step> {
    [Step.SignIn(user, device, k), Read(0, Encoded(k))]
  }

  lemma ReadAfterSignIn(ttl: int, start: int, user: string, device: string, k: Token) returns (w: World)
    requires WellFormed(k) && ttl >= 0
    ensures Run(ttl, Start(start), Opening(user, device, k), w)
    ensures w.pending.Keys == {0} && w.pending[0].Rotating? && w.pending[0].t == Encoded(k) && w.pending[0].k == k
    ensures k.sid in w.expiry && Accepts(w.sessions, Encoded(k), w.now) && w.drawn.Keys == {k.secret}
    ensures w.honoured == []
  {
    var a, b := Step.SignIn(user, device, k), Read(0, Encoded(k));
    SplitUndoesEncoded(Encoded(k), k);
    w := Apply(ttl, Apply(ttl, Start(start), a), b);
    TwoSteps(ttl, Start(start), a, b);
  }

  /** Under every lifetime and for every token, two calls that read before either writes leave the token honoured and
      still to be honoured once more. */
  lemma OverlapHonoursTwice(ttl: int, start: int, user: string, device: string, k: Token, newSecret: string)
      returns (acts: seq<Step>, w: World)
    requires WellFormed(k) && ttl >= 0 && newSecret != k.secret
    ensures Run(ttl, Start(start), acts, w) && |w.honoured| == 1 && w.honoured[0].t == Encoded(k)
    ensures CanBeHonouredFrom(ttl, w, Encoded(k))
  {
    var mid := ReadAfterSignIn(ttl, start, user, device, k);
    var a, b := Read(1, Encoded(k)), Write(0, newSecret, NoFault);
    w := Apply(ttl, Apply(ttl, mid, a), b);
    acts := Opening(user, device, k) + [a, b];
    SplitUndoesEncoded(Encoded(k), k);
    TwoSteps(ttl, mid, a, b);
    RunOn(ttl, Start(start), Opening(user, device, k), mid, [a, b], w);
    WriteHonours(ttl, w, 1);
  }

  /** And a session revoked between a call's read and its write is gone only until the write. */
  lemma OverlapRevivesSession(ttl: int, start: int, user: string, device: string, k: Token)
      returns (acts: seq<Step>, w: World)
    requires WellFormed(k) && ttl >= 0
    ensures Run(ttl, Start(start), acts, w) && acts != [] && acts[|acts| - 1] == Drop(k.sid)
    ensures k.sid in w.expiry && k.sid !in w.sessions && CanBeLiveFrom(ttl, w, k.sid)
  {
    var mid := ReadAfterSignIn(ttl, start, user, device, k);
    var a := Drop(k.sid);
    w := Apply(ttl, mid, a);
    acts := Opening(user, device, k) + [a];
    OneStep(ttl, mid, a);
    RunOn(ttl, Start(start), Opening(user, device, k), mid, [a], w);
    WriteHonours(ttl, w, 0);
  }
}
