/** Rotating refresh tokens: the server's session calls, and what a run of non-overlapping calls keeps, faults of the
    session store included. Secrets and session ids are fresh; a digest stands for the hash of its secret. */
module RefreshSessions {
  import opened Common

  // ---- "{sessionID}.{secret}" ----

  function IndexOf(t: string, c: char): int {
    if t == "" then -1
    else if t[0] == c then 0
    else
      var i := IndexOf(t[1..], c);
      if i < 0 then -1 else i + 1
  }

  lemma {:induction false} IndexOfIsFirst(t: string, c: char)
    ensures IndexOf(t, c) == -1 <==> c !in t
    ensures IndexOf(t, c) >= -1
    ensures var i := IndexOf(t, c); i >= 0 ==> i < |t| && t[i] == c && c !in t[..i]
  {
    if t != "" && t[0] != c {
      IndexOfIsFirst(t[1..], c);
      var i := IndexOf(t[1..], c);
      if i >= 0 { assert t[..i + 1] == [t[0]] + t[1..][..i]; }
    }
  }

  datatype Token = Token(sid: string, secret: string)

  predicate WellFormed(k: Token) {
    k.sid != "" && '.' !in k.sid && k.secret != ""
  }

  function Encoded(k: Token): string {
    k.sid + "." + k.secret
  }

  function SplitRefresh(t: string): Option<Token> {
    var i := IndexOf(t, '.');
    if i <= 0 || i == |t| - 1 then None
    else
      IndexOfIsFirst(t, '.');
      Some(Token(t[..i], t[i + 1..]))
  }

  /** Splitting undoes the encoding, and only encodings of well-formed tokens split at all. */
  lemma SplitUndoesEncoded(t: string, k: Token)
    ensures SplitRefresh(t) == Some(k) <==> WellFormed(k) && t == Encoded(k)
  {
    var i := IndexOf(t, '.');
    IndexOfIsFirst(t, '.');
    if WellFormed(k) && t == Encoded(k) {
      assert t[|k.sid|] == '.';
      if i < |k.sid| { assert false; }
      if i > |k.sid| { assert false; }
      assert t[..i] == k.sid && t[i + 1..] == k.secret;
    }
    if SplitRefresh(t) == Some(k) {
      assert t == t[..i] + [t[i]] + t[i + 1..];
      assert t[i] == '.';
    }
  }

  // ---- The server ----

  datatype Digest = Digest(secret: string)

  datatype Session = Session(userId: string, refreshHash: Digest, device: string, issuedAt: int, expiresAt: int)

  type Sessions = map<string, Session>

  /** What goes wrong in a call; a write that fails may still have been applied. */
  datatype Fault = NoFault | LookupFails | NoSecret | WriteFails(applied: bool) | IssueFails

  datatype Reply = Pair(refreshToken: string) | Unauthenticated | Internal | InvalidArgument | Done

  /** issuePair stores the new session unless there is no secret or the write does not get through. */
  predicate Writes(f: Fault) {
    f == NoFault || f == IssueFails || (f.WriteFails? && f.applied)
  }

  function SignedIn(m: Sessions, user: string, device: string, k: Token, now: int, ttl: int, f: Fault): Sessions {
    if Writes(f) then m[k.sid := Session(user, Digest(k.secret), device, now, now + ttl)] else m
  }

  predicate Accepts(m: Sessions, t: string, now: int) {
    var k := SplitRefresh(t);
    && k.Some? && k.value.sid in m
    && m[k.value.sid].refreshHash == Digest(k.value.secret)
    && now <= m[k.value.sid].expiresAt
  }

  function RefreshedSessions(m: Sessions, t: string, newSecret: string, now: int, f: Fault): Sessions {
    var k := SplitRefresh(t);
    if k.None? || f == LookupFails || k.value.sid !in m then m
    else if !Accepts(m, t, now) then m - {k.value.sid}
    else if Writes(f) then
      m[k.value.sid := m[k.value.sid].(refreshHash := Digest(newSecret), issuedAt := now)]
    else m
  }

  function RefreshReply(m: Sessions, t: string, newSecret: string, now: int, f: Fault): Reply {
    var k := SplitRefresh(t);
    if k.Some? && f == LookupFails then Internal
    else if !Accepts(m, t, now) then Unauthenticated
    else if f != NoFault then Internal
    else Pair(Encoded(Token(k.value.sid, newSecret)))
  }

  function Revoked(m: Sessions, sessionId: string, t: string): Sessions {
    if sessionId != "" then m - {sessionId}
    else if SplitRefresh(t).Some? then m - {SplitRefresh(t).value.sid}
    else m
  }

  class Server {
    const refreshTTL: int
    var sessions: Sessions

    constructor (refreshTTL: int)
      ensures sessions == map[] && this.refreshTTL == refreshTTL
    {
      this.refreshTTL := refreshTTL;
      sessions := map[];
    }

    method IssuePair(user: string, device: string, k: Token, now: int, f: Fault) returns (r: Reply)
      requires f != LookupFails
      modifies this
      ensures sessions == SignedIn(old(sessions), user, device, k, now, refreshTTL, f)
      ensures f == NoSecret || f == WriteFails(false) ==> sessions == old(sessions)
      ensures f == NoFault || f == IssueFails || f == WriteFails(true) ==>
                sessions == old(sessions)[k.sid := Session(userId := user, refreshHash := Digest(k.secret),
                                                           device := device, issuedAt := now,
                                                           expiresAt := now + refreshTTL)]
      ensures r == if f == NoFault then Pair(k.sid + "." + k.secret) else Internal
    {
      if f == NoSecret { return Internal; }
      var sess := Session(user, Digest(k.secret), device, now, now + refreshTTL);
      if f == WriteFails(false) { return Internal; }
      sessions := sessions[k.sid := sess];
      if f == WriteFails(true) || f == IssueFails { return Internal; }
      return Pair(k.sid + "." + k.secret);
    }

    method RefreshToken(t: string, newSecret: string, now: int, f: Fault) returns (r: Reply)
      modifies this
      ensures sessions == RefreshedSessions(old(sessions), t, newSecret, now, f)
      ensures r == RefreshReply(old(sessions), t, newSecret, now, f)
      // malformed, or no session found
      ensures SplitRefresh(t).None? ==> sessions == old(sessions) && r == Unauthenticated
      ensures SplitRefresh(t).Some? && f == LookupFails ==> sessions == old(sessions) && r == Internal
      ensures SplitRefresh(t).Some? && f != LookupFails && SplitRefresh(t).value.sid !in old(sessions) ==>
                sessions == old(sessions) && r == Unauthenticated
      // found: rotated if the secret is the stored one and in time, and gone otherwise
      ensures SplitRefresh(t).Some? && f != LookupFails && SplitRefresh(t).value.sid in old(sessions) ==>
                var sid, secret := SplitRefresh(t).value.sid, SplitRefresh(t).value.secret;
                var sess := old(sessions)[sid];
                if sess.refreshHash == Digest(secret) && now <= sess.expiresAt then
                  && sessions == (if f == NoSecret || f == WriteFails(false) then old(sessions)
                                  else old(sessions)[sid := Session(sess.userId, Digest(newSecret), sess.device, now,
                                                                    sess.expiresAt)])
                  && r == if f == NoFault then Pair(sid + "." + newSecret) else Internal
                else sessions == old(sessions) - {sid} && r == Unauthenticated
    {
      var k := SplitRefresh(t);
      if k.None? { return Unauthenticated; }
      var sid, secret := k.value.sid, k.value.secret;
      if f == LookupFails { return Internal; }
      if sid !in sessions { return Unauthenticated; }
      var sess := sessions[sid];
      if Digest(secret) != sess.refreshHash {
        sessions := sessions - {sid};
        return Unauthenticated;
      }
      if now > sess.expiresAt {
        sessions := sessions - {sid};
        return Unauthenticated;
      }
      if f == NoSecret { return Internal; }
      sess := sess.(refreshHash := Digest(newSecret), issuedAt := now);
      if f == WriteFails(false) { return Internal; }
      sessions := sessions[sid := sess];
      if f == WriteFails(true) || f == IssueFails { return Internal; }
      return Pair(sid + "." + newSecret);
    }

    method Revoke(sessionId: string, t: string) returns (r: Reply)
      modifies this
      ensures sessions == Revoked(old(sessions), sessionId, t)
      ensures sessionId != "" ==> sessions == old(sessions) - {sessionId}
      ensures sessionId == "" && SplitRefresh(t).Some? ==> sessions == old(sessions) - {SplitRefresh(t).value.sid}
      ensures sessionId == "" && SplitRefresh(t).None? ==> sessions == old(sessions)
      ensures r == if sessionId != "" || SplitRefresh(t).Some? then Done else InvalidArgument
    {
      if sessionId != "" {
        sessions := sessions - {sessionId};
      } else if t != "" {
        var k := SplitRefresh(t);
        if k.None? { return InvalidArgument; }
        sessions := sessions - {k.value.sid};
      } else {
        return InvalidArgument;
      }
      return Done;
    }
  }

  // ---- Runs ----

  /** `secrets[sid]` are the secrets stored for a session, oldest first, and `born[sid]` its sign-in; `honoured` are
      the tokens traded for a new pair. */
  datatype World = World(
    now: int,
    sessions: Sessions,
    secrets: map<string, seq<string>>,
    born: map<string, Session>,
    honoured: seq<string>)

  datatype Action =
    | Advance(to: int)
    | SignIn(user: string, device: string, k: Token, f: Fault)
    | Refresh(t: string, newSecret: string, f: Fault)
    | Revoke(sessionId: string, t: string)
    | Lapse(sid: string)

  predicate Unused(w: World, secret: string) {
    secret != "" && forall sid :: sid in w.secrets ==> secret !in w.secrets[sid]
  }

  predicate Enabled(w: World, a: Action) {
    match a
    case Advance(to) => w.now <= to
    case SignIn(_, _, k, f) => WellFormed(k) && k.sid !in w.secrets && Unused(w, k.secret) && f != LookupFails
    case Refresh(_, newSecret, _) => Unused(w, newSecret)
    case Revoke(_, _) => true
    case Lapse(_) => true
  }

  function Apply(ttl: int, w: World, a: Action): World
    requires Enabled(w, a)
  {
    match a
    case Advance(to) => w.(now := to)
    case SignIn(user, device, k, f) =>
      var m := SignedIn(w.sessions, user, device, k, w.now, ttl, f);
      if Writes(f) then
        w.(sessions := m, secrets := w.secrets[k.sid := [k.secret]],
           born := w.born[k.sid := Session(user, Digest(k.secret), device, w.now, w.now + ttl)])
      else w.(sessions := m)
    case Refresh(t, newSecret, f) =>
      var m := RefreshedSessions(w.sessions, t, newSecret, w.now, f);
      var w' := w.(sessions := m, honoured := if RefreshReply(w.sessions, t, newSecret, w.now, f).Pair?
                                              then w.honoured + [t] else w.honoured);
      if Accepts(w.sessions, t, w.now) && Writes(f) then
        var sid := SplitRefresh(t).value.sid;
        w'.(secrets := w.secrets[sid := (if sid in w.secrets then w.secrets[sid] else []) + [newSecret]])
      else w'
    case Revoke(sessionId, t) => w.(sessions := Revoked(w.sessions, sessionId, t))
    case Lapse(sid) => w.(sessions := w.sessions - {sid})
  }

  predicate Run(ttl: int, w: World, acts: seq<Action>, end: World)
    decreases |acts|
  {
    if acts == [] then end == w else Enabled(w, acts[0]) && Run(ttl, Apply(ttl, w, acts[0]), acts[1..], end)
  }

  function Start(now: int): World {
    World(now, map[], map[], map[], [])
  }

  /** The token a session's last sign-in or refresh stored. */
  function Newest(w: World, sid: string): Token {
    Token(sid, if sid in w.secrets && w.secrets[sid] != [] then w.secrets[sid][|w.secrets[sid]| - 1] else "")
  }

  ghost predicate DistinctSecrets(s: map<string, seq<string>>) {
    forall x, y, i, j :: x in s && y in s && 0 <= i < |s[x]| && 0 <= j < |s[y]| && s[x][i] == s[y][j] ==>
      x == y && i == j
  }

  /** A live session holds the hash of its newest secret and is otherwise as it was at sign-in. */
  ghost predicate LiveOk(w: World) {
    forall sid :: sid in w.sessions ==>
      && sid in w.secrets && sid in w.born && w.secrets[sid] != []
      && w.sessions[sid] == w.born[sid].(refreshHash := Digest(Newest(w, sid).secret),
                                         issuedAt := w.sessions[sid].issuedAt)
  }

  ghost predicate SecretsOk(w: World) {
    && DistinctSecrets(w.secrets)
    && forall sid :: sid in w.secrets ==>
         && w.secrets[sid] != []
         && forall i :: 0 <= i < |w.secrets[sid]| ==> WellFormed(Token(sid, w.secrets[sid][i]))
  }

  /** A secret that a later one of its session has replaced. */
  ghost predicate Superseded(w: World, k: Token) {
    k.sid in w.secrets && k.secret in w.secrets[k.sid] && k != Newest(w, k.sid)
  }

  ghost predicate HonouredOk(w: World) {
    && (forall t :: t in w.honoured ==> SplitRefresh(t).Some? && Superseded(w, SplitRefresh(t).value))
    && (forall i, j :: 0 <= i < j < |w.honoured| ==> w.honoured[i] != w.honoured[j])
  }

  ghost predicate Inv(w: World) {
    SecretsOk(w) && LiveOk(w) && HonouredOk(w)
  }

  // ---- What every run keeps ----

  lemma SecretsGrow(w: World, sid: string, secret: string)
    requires SecretsOk(w) && Unused(w, secret) && WellFormed(Token(sid, secret))
    ensures var all := if sid in w.secrets then w.secrets[sid] + [secret] else [secret];
      SecretsOk(w.(secrets := w.secrets[sid := all]))
  {
    var all := if sid in w.secrets then w.secrets[sid] + [secret] else [secret];
    var s := w.secrets[sid := all];
    forall x, y, i, j | x in s && y in s && 0 <= i < |s[x]| && 0 <= j < |s[y]| && s[x][i] == s[y][j]
      ensures x == y && i == j
    {
      if x in w.secrets && i < |w.secrets[x]| { assert s[x][i] == w.secrets[x][i]; }
      if y in w.secrets && j < |w.secrets[y]| { assert s[y][j] == w.secrets[y][j]; }
    }
  }

  lemma SupersededStays(w: World, sid: string, secret: string)
    requires SecretsOk(w) && Unused(w, secret) && HonouredOk(w) && sid in w.secrets
    ensures var w' := w.(secrets := w.secrets[sid := w.secrets[sid] + [secret]]);
      && HonouredOk(w') && Superseded(w', Newest(w, sid))
  {
    var w' := w.(secrets := w.secrets[sid := w.secrets[sid] + [secret]]);
    forall t | t in w.honoured
      ensures SplitRefresh(t).Some? && Superseded(w', SplitRefresh(t).value)
    {
      var k := SplitRefresh(t).value;
      assert Superseded(w, k);
    }
  }

  /** The newest token of a live session, and only it, is honoured while the session has not expired. */
  lemma OnlyTheNewestIsAccepted(w: World, t: string)
    requires SecretsOk(w) && LiveOk(w)
    ensures Accepts(w.sessions, t, w.now) <==>
            exists sid :: sid in w.sessions && w.now <= w.sessions[sid].expiresAt
                          && t == Encoded(Newest(w, sid))
  {
    if Accepts(w.sessions, t, w.now) {
      SplitUndoesEncoded(t, SplitRefresh(t).value);
    }
    forall sid | sid in w.sessions && w.now <= w.sessions[sid].expiresAt
                 && t == Encoded(Newest(w, sid))
      ensures Accepts(w.sessions, t, w.now)
    {
      var newest := Newest(w, sid);
      assert WellFormed(newest);
      SplitUndoesEncoded(t, newest);
    }
  }

  lemma InvSignIn(ttl: int, w: World, a: Action)
    requires a.SignIn? && Enabled(w, a) && Inv(w)
    ensures Inv(Apply(ttl, w, a))
  {
    if Writes(a.f) {
      SecretsGrow(w, a.k.sid, a.k.secret);
      var w' := Apply(ttl, w, a);
      forall t | t in w.honoured
        ensures SplitRefresh(t).Some? && Superseded(w', SplitRefresh(t).value)
      {
        assert Superseded(w, SplitRefresh(t).value);
      }
    }
  }

  lemma InvRefresh(ttl: int, w: World, a: Action)
    requires a.Refresh? && Enabled(w, a) && Inv(w)
    ensures Inv(Apply(ttl, w, a))
  {
    if Accepts(w.sessions, a.t, w.now) && Writes(a.f) {
      InvRotate(ttl, w, a);
    } else {
      DroppingKeepsInv(w, Apply(ttl, w, a));
    }
  }

  /** Sessions may only go. */
  lemma DroppingKeepsInv(w: World, w': World)
    requires Inv(w) && w'.secrets == w.secrets && w'.honoured == w.honoured && w'.born == w.born
    requires forall sid :: sid in w'.sessions ==> sid in w.sessions && w'.sessions[sid] == w.sessions[sid]
    ensures Inv(w')
  {
    hide SplitRefresh;
    assert forall k :: Superseded(w, k) ==> Superseded(w', k);
  }

  lemma InvRotate(ttl: int, w: World, a: Action)
    requires a.Refresh? && Enabled(w, a) && Inv(w) && Accepts(w.sessions, a.t, w.now) && Writes(a.f)
    ensures Inv(Apply(ttl, w, a))
  {
    var k, w' := SplitRefresh(a.t).value, Apply(ttl, w, a);
    var grown := w.(secrets := w.secrets[k.sid := w.secrets[k.sid] + [a.newSecret]]);
    SplitUndoesEncoded(a.t, k);
    SecretsGrow(w, k.sid, a.newSecret);
    SupersededStays(w, k.sid, a.newSecret);
    NotHonouredBefore(w, a.t);
    assert k == Newest(w, k.sid);
    assert w'.secrets == grown.secrets;
    HonouredGrows(grown, w', a.t, a.f == NoFault);
  }

  lemma HonouredGrows(w: World, w': World, t: string, honours: bool)
    requires HonouredOk(w) && w'.secrets == w.secrets && t !in w.honoured
    requires w'.honoured == if honours then w.honoured + [t] else w.honoured
    requires SplitRefresh(t).Some? && Superseded(w, SplitRefresh(t).value)
    ensures HonouredOk(w')
  {
    hide SplitRefresh;
    assert forall k :: Superseded(w', k) <==> Superseded(w, k);
  }

  lemma NotHonouredBefore(w: World, t: string)
    requires Inv(w) && Accepts(w.sessions, t, w.now)
    ensures t !in w.honoured
  {
  }

  lemma InvStep(ttl: int, w: World, a: Action)
    requires Enabled(w, a) && Inv(w)
    ensures Inv(Apply(ttl, w, a))
  {
    hide Inv, SplitRefresh;
    match a
    case Advance(_) => DroppingKeepsInv(w, Apply(ttl, w, a));
    case SignIn(_, _, _, _) => InvSignIn(ttl, w, a);
    case Refresh(_, _, _) => InvRefresh(ttl, w, a);
    case Revoke(_, _) => DroppingKeepsInv(w, Apply(ttl, w, a));
    case Lapse(_) => DroppingKeepsInv(w, Apply(ttl, w, a));
  }

  lemma {:induction false} InvRun(ttl: int, w: World, acts: seq<Action>, end: World)
    requires Run(ttl, w, acts, end) && Inv(w)
    ensures Inv(end)
    decreases |acts|
  {
    if acts != [] {
      InvStep(ttl, w, acts[0]);
      InvRun(ttl, Apply(ttl, w, acts[0]), acts[1..], end);
    }
  }

  /** In every run each refresh token is honoured at most once; the token honoured next is the newest one of a live,
      unexpired session; and a live session still has the user, device and expiry of its sign-in. */
  lemma TokensAreHonouredOnce(ttl: int, start: int, acts: seq<Action>, w: World)
    requires Run(ttl, Start(start), acts, w)
    ensures forall i, j :: 0 <= i < j < |w.honoured| ==> w.honoured[i] != w.honoured[j]
    ensures forall t :: t in w.honoured ==> !Accepts(w.sessions, t, w.now)
    ensures forall sid :: sid in w.sessions ==>
              && sid in w.born
              && w.sessions[sid].expiresAt == w.born[sid].expiresAt == w.born[sid].issuedAt + ttl
              && w.sessions[sid].userId == w.born[sid].userId && w.sessions[sid].device == w.born[sid].device
    ensures forall t :: Accepts(w.sessions, t, w.now) <==>
              exists sid :: sid in w.sessions && w.now <= w.sessions[sid].expiresAt
                            && t == Encoded(Newest(w, sid))
  {
    InvRun(ttl, Start(start), acts, w);
    BornRun(ttl, Start(start), acts, w);
    forall t ensures Accepts(w.sessions, t, w.now) <==>
              exists sid :: sid in w.sessions && w.now <= w.sessions[sid].expiresAt
                            && t == Encoded(Newest(w, sid))
    {
      OnlyTheNewestIsAccepted(w, t);
    }
  }

  lemma {:induction false} BornRun(ttl: int, w: World, acts: seq<Action>, end: World)
    requires Run(ttl, w, acts, end)
    requires forall sid :: sid in w.born ==> w.born[sid].expiresAt == w.born[sid].issuedAt + ttl
    ensures forall sid :: sid in end.born ==> end.born[sid].expiresAt == end.born[sid].issuedAt + ttl
    decreases |acts|
  {
    if acts != [] { BornRun(ttl, Apply(ttl, w, acts[0]), acts[1..], end); }
  }

  /** The token a call hands out is the one the next refresh accepts, until the session's expiry. */
  lemma HandedOutIsAccepted(m: Sessions, t: string, newSecret: string, k: Token, user: string, device: string, now: int,
                            ttl: int, later: int)
    requires newSecret != "" && WellFormed(k)
    ensures RefreshReply(m, t, newSecret, now, NoFault).Pair? ==>
              var sid, m' := SplitRefresh(t).value.sid, RefreshedSessions(m, t, newSecret, now, NoFault);
              Accepts(m', RefreshReply(m, t, newSecret, now, NoFault).refreshToken, later) <==>
              later <= m[sid].expiresAt
    ensures Accepts(SignedIn(m, user, device, k, now, ttl, NoFault), Encoded(k), later) <==> later <= now + ttl
  {
    SplitUndoesEncoded(Encoded(k), k);
    if Accepts(m, t, now) {
      var old' := SplitRefresh(t).value;
      SplitUndoesEncoded(t, old');
      var next := Token(old'.sid, newSecret);
      SplitUndoesEncoded(Encoded(next), next);
    }
  }

  // ---- Ended sessions ----

  /** With calls one at a time, a session that has ended never comes back. */
  lemma {:induction false} EndedForGood(ttl: int, w: World, acts: seq<Action>, end: World, sid: string)
    requires Run(ttl, w, acts, end) && sid in w.secrets && sid !in w.sessions
    ensures sid !in end.sessions && sid in end.secrets && end.secrets[sid] == w.secrets[sid]
    decreases |acts|
  {
    if acts != [] {
      EndedForGood(ttl, Apply(ttl, w, acts[0]), acts[1..], end, sid);
    }
  }

  /** With calls one at a time, presenting a superseded token, or any other with a secret that is not the newest, ends
      its session for good: in every later state the session is gone and none of its tokens is accepted. */
  lemma ReuseEndsTheSession(ttl: int, start: int, before: seq<Action>, w: World, t: string, newSecret: string, f: Fault,
                            after: seq<Action>, end: World, u: string)
    requires Run(ttl, Start(start), before, w)
    requires Enabled(w, Refresh(t, newSecret, f)) && f != LookupFails
    requires SplitRefresh(t).Some? && SplitRefresh(t).value.sid in w.secrets
    requires SplitRefresh(t).value != Newest(w, SplitRefresh(t).value.sid)
    requires Run(ttl, Apply(ttl, w, Refresh(t, newSecret, f)), after, end)
    requires SplitRefresh(u).Some? && SplitRefresh(u).value.sid == SplitRefresh(t).value.sid
    ensures SplitRefresh(t).value.sid !in end.sessions && !Accepts(end.sessions, u, end.now)
  {
    InvRun(ttl, Start(start), before, w);
    var sid := SplitRefresh(t).value.sid;
    assert !Accepts(w.sessions, t, w.now);
    EndedForGood(ttl, Apply(ttl, w, Refresh(t, newSecret, f)), after, end, sid);
  }
}
