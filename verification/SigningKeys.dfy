/** Signing keys that rotate in Identity against the gateway's cached copy of them: which key a token resolves to, for
    how long, and what the cache can be out of date by. Keys and their ids are abstract values. */
module SigningKeys {
  import opened Common

  type Key = int

  // ---- Identity ----

  datatype KeyPair = KeyPair(kid: string, pub: Key)

  datatype Keys = Keys(current: KeyPair, previous: Option<KeyPair>)

  function Rotated(k: Keys, kp: KeyPair): Keys {
    Keys(kp, Some(k.current))
  }

  function ByKid(k: Keys, kid: string): Option<Key> {
    if k.current.kid == kid then Some(k.current.pub)
    else if k.previous.Some? && k.previous.value.kid == kid then Some(k.previous.value.pub)
    else None
  }

  /** One published key; `key` is None where the reader cannot make a key of it. */
  datatype Jwk = Jwk(kid: string, key: Option<Key>)

  function JwkFor(kp: KeyPair): Jwk {
    Jwk(kp.kid, Some(kp.pub))
  }

  function Jwks(k: Keys): seq<Jwk> {
    [JwkFor(k.current)] + if k.previous.Some? then [JwkFor(k.previous.value)] else []
  }

  class Manager {
    var current: KeyPair
    var previous: Option<KeyPair>

    ghost function View(): Keys
      reads this
    {
      Keys(current, previous)
    }

    constructor (kp: KeyPair)
      ensures View() == Keys(kp, None)
    {
      current, previous := kp, None;
    }

    method Rotate(kp: KeyPair)
      modifies this
      ensures View() == Rotated(old(View()), kp)
      ensures current == kp && previous == Some(old(current))
    {
      previous := Some(current);
      current := kp;
    }

    /** Issue, down to the key id it writes and the key whose private half signs. */
    method Issue() returns (kid: string, signedBy: Key)
      ensures KeyPair(kid, signedBy) == current && ByKid(View(), kid) == Some(signedBy)
    {
      return current.kid, current.pub;
    }

    method PublicKeyByKid(kid: string) returns (key: Option<Key>)
      ensures key == ByKid(View(), kid)
      ensures kid == current.kid ==> key == Some(current.pub)
      ensures kid != current.kid ==>
                key == if previous.Some? && previous.value.kid == kid then Some(previous.value.pub) else None
    {
      if current.kid == kid { return Some(current.pub); }
      if previous.Some? && previous.value.kid == kid { return Some(previous.value.pub); }
      return None;
    }

    method PublishedKeys() returns (out: seq<Jwk>)
      ensures out == Jwks(View())
      ensures out == [Jwk(current.kid, Some(current.pub))] +
                     if previous.Some? then [Jwk(previous.value.kid, Some(previous.value.pub))] else []
    {
      out := [JwkFor(current)];
      if previous.Some? { out := out + [JwkFor(previous.value)]; }
    }
  }

  // ---- The gateway ----

  datatype Gate = Gate(keys: map<string, Key>, fetchedAt: int, haveKeys: bool)

  const EMPTY := Gate(map[], 0, false)

  datatype Lookup = Found(key: Key) | ErrUnknownKey | ErrNoKeys

  const TEN_MINUTES := 600_000_000_000

  predicate NeedsFetch(ttl: int, g: Gate, kid: string, now: int) {
    !g.haveKeys || now - g.fetchedAt >= ttl || kid !in g.keys
  }

  /** A later key replaces an earlier one of the same id; unusable ones are skipped. */
  function Usable(jwks: seq<Jwk>): map<string, Key> {
    if jwks == [] then map[]
    else
      var last, m := jwks[|jwks| - 1], Usable(jwks[..|jwks| - 1]);
      if last.key.Some? then m[last.kid := last.key.value] else m
  }

  /** The i-th key is usable, and no usable one after it has its id. */
  ghost predicate LastUsable(jwks: seq<Jwk>, kid: string, i: int) {
    && 0 <= i < |jwks| && jwks[i].kid == kid && jwks[i].key.Some?
    && forall j :: i < j < |jwks| && jwks[j].key.Some? ==> jwks[j].kid != kid
  }

  /** The usable keys by id, of several with one id the last. */
  ghost predicate HoldsLastOfEach(m: map<string, Key>, jwks: seq<Jwk>) {
    && (forall kid :: kid in m ==> exists i :: LastUsable(jwks, kid, i) && m[kid] == jwks[i].key.value)
    && (forall i :: 0 <= i < |jwks| && jwks[i].key.Some? ==> jwks[i].kid in m)
  }

  lemma {:induction false} UsableIsLastOfEach(jwks: seq<Jwk>)
    ensures HoldsLastOfEach(Usable(jwks), jwks)
    ensures Usable(jwks) != map[] <==> exists i :: 0 <= i < |jwks| && jwks[i].key.Some?
  {
    if jwks != [] {
      var n := |jwks| - 1;
      UsableIsLastOfEach(jwks[..n]);
      LastOfEachMore(Usable(jwks[..n]), jwks);
    }
    NoneHeldIffNoneUsable(Usable(jwks), jwks);
  }

  lemma NoneHeldIffNoneUsable(m: map<string, Key>, jwks: seq<Jwk>)
    requires HoldsLastOfEach(m, jwks)
    ensures m != map[] <==> exists i :: 0 <= i < |jwks| && jwks[i].key.Some?
  {
    if m != map[] {
      var kid :| kid in m;
      var i :| LastUsable(jwks, kid, i) && m[kid] == jwks[i].key.value;
    }
  }

  lemma LastOfEachMore(m: map<string, Key>, jwks: seq<Jwk>)
    requires jwks != [] && HoldsLastOfEach(m, jwks[..|jwks| - 1])
    ensures var last := jwks[|jwks| - 1];
            HoldsLastOfEach(if last.key.Some? then m[last.kid := last.key.value] else m, jwks)
  {
    var n := |jwks| - 1;
    var init, last := jwks[..n], jwks[n];
    var m' := if last.key.Some? then m[last.kid := last.key.value] else m;
    forall kid | kid in m'
      ensures exists i :: LastUsable(jwks, kid, i) && m'[kid] == jwks[i].key.value
    {
      if last.key.Some? && kid == last.kid {
        assert LastUsable(jwks, kid, n);
      } else {
        var i :| LastUsable(init, kid, i) && m[kid] == init[i].key.value;
        assert forall j :: 0 <= j < n ==> init[j] == jwks[j];
        assert LastUsable(jwks, kid, i);
      }
    }
    forall i | 0 <= i < |jwks| && jwks[i].key.Some?
      ensures jwks[i].kid in m'
    {
      if i < n { assert init[i] == jwks[i]; }
    }
  }

  /** `answer` is what the fetch returned, None for an error. */
  function Refreshed(g: Gate, answer: Option<seq<Jwk>>, now: int): Gate {
    if answer.None? || Usable(answer.value) == map[] then g else Gate(Usable(answer.value), now, true)
  }

  function Cached(g: Gate, kid: string): Lookup {
    if !g.haveKeys then ErrNoKeys else if kid in g.keys then Found(g.keys[kid]) else ErrUnknownKey
  }

  class Verifier {
    const ttl: int
    var keys: map<string, Key>
    var fetchedAt: int
    var haveKeys: bool

    ghost function View(): Gate
      reads this
    {
      Gate(keys, fetchedAt, haveKeys)
    }

    constructor (refreshTTL: int)
      ensures View() == EMPTY && ttl == if refreshTTL == 0 then TEN_MINUTES else refreshTTL
    {
      ttl := if refreshTTL == 0 then TEN_MINUTES else refreshTTL;
      keys, fetchedAt, haveKeys := map[], 0, false;
    }

    method RefreshLocked(answer: Option<seq<Jwk>>, now: int) returns (ok: bool)
      modifies this
      ensures View() == Refreshed(old(View()), answer, now)
      ensures ok <==> answer.Some? && Usable(answer.value) != map[]
      ensures !ok ==> keys == old(keys) && fetchedAt == old(fetchedAt) && haveKeys == old(haveKeys)
      ensures ok ==> haveKeys && fetchedAt == now && HoldsLastOfEach(keys, answer.value)
      ensures ok <==> answer.Some? && exists i :: 0 <= i < |answer.value| && answer.value[i].key.Some?
    {
      if answer.Some? { UsableIsLastOfEach(answer.value); }
      if answer.None? { return false; }
      var parsed: map<string, Key> := map[];
      var jwks := answer.value;
      for i := 0 to |jwks|
        invariant parsed == Usable(jwks[..i])
        invariant View() == old(View())
      {
        assert jwks[..i + 1][..i] == jwks[..i];
        if jwks[i].key.Some? { parsed := parsed[jwks[i].kid := jwks[i].key.value]; }
      }
      assert jwks[..|jwks|] == jwks;
      if |parsed| == 0 { return false; }
      keys, fetchedAt, haveKeys := parsed, now, true;
      return true;
    }

    /** `answer` is what a fetch would return and `later` the clock when it has. */
    method KeyFor(kid: string, now: int, answer: Option<seq<Jwk>>, later: int) returns (r: Lookup)
      requires !haveKeys ==> keys == map[]
      modifies this
      ensures !haveKeys ==> keys == map[]
      ensures View() == if NeedsFetch(ttl, old(View()), kid, now) then Refreshed(old(View()), answer, later)
                        else old(View())
      ensures r == Cached(View(), kid)
      // no fetch while the cache is fresh and has the id
      ensures old(haveKeys) && now - old(fetchedAt) < ttl && kid in old(keys) ==>
                View() == old(View()) && r == Found(old(keys)[kid])
      ensures answer.None? ==> View() == old(View())
      ensures (!old(haveKeys) || now - old(fetchedAt) >= ttl || kid !in old(keys)) && answer.Some?
              && (exists i :: 0 <= i < |answer.value| && answer.value[i].key.Some?) ==>
                haveKeys && fetchedAt == later && HoldsLastOfEach(keys, answer.value)
      ensures r == if !haveKeys then ErrNoKeys else if kid in keys then Found(keys[kid]) else ErrUnknownKey
    {
      var stale := !haveKeys || now - fetchedAt >= ttl;
      if stale || kid !in keys {
        var ok := RefreshLocked(answer, later);
        if !ok && !haveKeys { return ErrNoKeys; }
      }
      return if kid in keys then Found(keys[kid]) else ErrUnknownKey;
    }
  }

  // ---- Runs of both ----

  /** `delay` is the longest a fetched answer stays on its way. */
  datatype Config = Config(ttl: int, delay: nat)

  datatype Minted = Minted(kp: KeyPair, at: int)

  /** Identity's answer, when it was given, and how many keys had been minted by then. */
  datatype Snapshot = Snapshot(jwks: seq<Jwk>, at: int, minted: nat)

  datatype Fetch = Fetch(kid: string, begun: int, mintedBefore: nat, answer: Option<Snapshot>)

  /** A finished lookup: `fetchOk` unless it needed a fetch that failed. */
  datatype Answer = Answer(kid: string, ended: int, mintedBefore: nat, mintedAfter: nat, fetchOk: bool, r: Lookup)

  /** A call of Issue that has its key and has yet to read the clock; `minted` counts the keys minted by then, so the
      last of them is the one it has. */
  datatype Issuing = Issuing(kp: KeyPair, at: int, minted: nat)

  /** An issued token: its key was read at `readAt` and its lifetime runs from `at`. */
  datatype Token = Token(kid: string, signedBy: Key, readAt: int, at: int, minted: nat)

  datatype World = World(
    now: int,
    keys: Keys,
    minted: seq<Minted>,
    gate: Gate,
    cachedAsOf: nat,
    fetching: Option<Fetch>,
    answers: seq<Answer>,
    issuing: map<nat, Issuing>,
    tokens: seq<Token>)

  datatype Action =
    | Advance(to: int)
    | Rotate(kp: KeyPair)
    | ReadKey(call: nat)
    | Sign(call: nat)
    | Look(kid: string)
    | Serve
    | Finish(ok: bool)

  ghost predicate Enabled(c: Config, w: World, a: Action) {
    match a
    case Advance(to) => w.now <= to
    case Rotate(kp) => forall i :: 0 <= i < |w.minted| ==> w.minted[i].kp.kid != kp.kid
    case ReadKey(call) => call !in w.issuing
    case Sign(call) => call in w.issuing
    case Look(_) => w.fetching.None?
    case Serve => w.fetching.Some? && w.fetching.value.answer.None?
    case Finish(ok) =>
      && w.fetching.Some?
      && (ok ==> w.fetching.value.answer.Some? && w.now - w.fetching.value.answer.value.at <= c.delay)
  }

  function Apply(c: Config, w: World, a: Action): World
    requires Enabled(c, w, a)
  {
    match a
    case Advance(to) => w.(now := to)
    case Rotate(kp) => w.(keys := Rotated(w.keys, kp), minted := w.minted + [Minted(kp, w.now)])
    case ReadKey(call) => w.(issuing := w.issuing[call := Issuing(w.keys.current, w.now, |w.minted|)])
    case Sign(call) =>
      var i := w.issuing[call];
      w.(issuing := w.issuing - {call},
         tokens := w.tokens + [Token(i.kp.kid, i.kp.pub, i.at, w.now, i.minted)])
    case Look(kid) =>
      if NeedsFetch(c.ttl, w.gate, kid, w.now) then
        w.(fetching := Some(Fetch(kid, w.now, |w.minted|, None)))
      else
        w.(answers := w.answers + [Answer(kid, w.now, |w.minted|, |w.minted|, true, Cached(w.gate, kid))])
    case Serve =>
      w.(fetching := Some(w.fetching.value.(answer := Some(Snapshot(Jwks(w.keys), w.now, |w.minted|)))))
    case Finish(ok) =>
      var f := w.fetching.value;
      var gate := Refreshed(w.gate, if ok then Some(f.answer.value.jwks) else None, w.now);
      w.(gate := gate, cachedAsOf := if ok then f.answer.value.minted else w.cachedAsOf, fetching := None,
         answers := w.answers + [Answer(f.kid, w.now, f.mintedBefore, |w.minted|, ok, Cached(gate, f.kid))])
  }

  ghost predicate Run(c: Config, w: World, acts: seq<Action>, end: World)
    decreases |acts|
  {
    if acts == [] then end == w else Enabled(c, w, acts[0]) && Run(c, Apply(c, w, acts[0]), acts[1..], end)
  }

  function Start(kp: KeyPair, now: int): World {
    World(now, Keys(kp, None), [Minted(kp, now)], EMPTY, 0, None, [], map[], [])
  }

  /** Identity's keys when the first n had been minted. */
  function KeysAfter(minted: seq<Minted>, n: nat): Keys
    requires 1 <= n <= |minted|
  {
    Keys(minted[n - 1].kp, if n == 1 then None else Some(minted[n - 2].kp))
  }

  ghost predicate History(minted: seq<Minted>, now: int) {
    && |minted| >= 1
    && (forall i, j :: 0 <= i < j < |minted| ==> minted[i].kp.kid != minted[j].kp.kid)
    && (forall i, j :: 0 <= i < j < |minted| ==> minted[i].at <= minted[j].at)
    && (forall i :: 0 <= i < |minted| ==> minted[i].at <= now)
  }

  /** Keys minted after the first n came no earlier than `since`. */
  ghost predicate LaterSince(minted: seq<Minted>, n: nat, since: int) {
    forall i :: n <= i < |minted| ==> minted[i].at >= since
  }

  ghost predicate CacheOk(c: Config, w: World) {
    if !w.gate.haveKeys then w.gate.keys == map[]
    else
      && 1 <= w.cachedAsOf <= |w.minted|
      && w.gate.keys == Usable(Jwks(KeysAfter(w.minted, w.cachedAsOf)))
      && w.gate.fetchedAt <= w.now
      && LaterSince(w.minted, w.cachedAsOf, w.gate.fetchedAt - c.delay)
  }

  ghost predicate FetchOk(w: World) {
    w.fetching.Some? ==>
      var f := w.fetching.value;
      && 1 <= f.mintedBefore <= |w.minted|
      && f.begun <= w.now
      && (f.answer.Some? ==>
            var s := f.answer.value;
            && f.mintedBefore <= s.minted <= |w.minted|
            && s.at <= w.now
            && s.jwks == Jwks(KeysAfter(w.minted, s.minted))
            && LaterSince(w.minted, s.minted, s.at))
  }

  /** What a lookup may find: only minted keys under their own id; with its fetch in order, every key published all
      along, and none that was retired ttl plus delay or longer before. */
  ghost predicate Current(c: Config, minted: seq<Minted>, a: Answer) {
    && a.mintedBefore <= a.mintedAfter <= |minted|
    && (forall i :: 0 <= i < a.mintedAfter ==> minted[i].at <= a.ended)
    && (a.r.Found? ==> exists i :: 0 <= i < a.mintedAfter && minted[i].kp == KeyPair(a.kid, a.r.key))
    && (a.fetchOk ==>
          forall i :: 0 <= i < a.mintedAfter && minted[i].kp.kid == a.kid ==>
            && (i < a.mintedBefore && a.mintedAfter <= i + 2 ==> a.r == Found(minted[i].kp.pub))
            && (a.r.Found? && i + 2 < a.mintedAfter ==> minted[i + 2].at > a.ended - c.ttl - c.delay))
  }

  /** The newest key when the call read it. */
  ghost predicate Newest(minted: seq<Minted>, i: Issuing) {
    1 <= i.minted <= |minted| && minted[i.minted - 1].kp == i.kp && LaterSince(minted, i.minted, i.at)
  }

  /** A token names the key that signed it, the newest one when its call read it. */
  ghost predicate Signed(minted: seq<Minted>, t: Token) {
    t.readAt <= t.at && Newest(minted, Issuing(KeyPair(t.kid, t.signedBy), t.readAt, t.minted))
  }

  ghost predicate Inv(c: Config, w: World) {
    && History(w.minted, w.now)
    && w.keys == KeysAfter(w.minted, |w.minted|)
    && CacheOk(c, w)
    && FetchOk(w)
    && (forall k :: 0 <= k < |w.tokens| ==> Signed(w.minted, w.tokens[k]) && w.tokens[k].at <= w.now)
    && (forall call :: call in w.issuing ==> Newest(w.minted, w.issuing[call]) && w.issuing[call].at <= w.now)
    && forall k :: 0 <= k < |w.answers| ==> Current(c, w.minted, w.answers[k])
  }

  lemma UsableLast(jwks: seq<Jwk>, last: Jwk)
    ensures Usable(jwks + [last]) == if last.key.Some? then Usable(jwks)[last.kid := last.key.value] else Usable(jwks)
  {
    assert (jwks + [last])[..|jwks|] == jwks;
  }

  lemma UsableKeys(k: Keys)
    requires k.previous.Some? ==> k.previous.value.kid != k.current.kid
    ensures forall kid :: kid in Usable(Jwks(k)) <==> ByKid(k, kid).Some?
    ensures forall kid :: kid in Usable(Jwks(k)) ==> ByKid(k, kid) == Some(Usable(Jwks(k))[kid])
    ensures Usable(Jwks(k)) != map[]
  {
    var jwks, first := Jwks(k), [JwkFor(k.current)];
    UsableLast([], JwkFor(k.current));
    assert [] + first == first;
    if k.previous.Some? {
      UsableLast(first, JwkFor(k.previous.value));
    } else {
      assert jwks == first;
    }
    assert k.current.kid in Usable(jwks);
  }

  /** A token minted after r rotations resolves after s >= r of them exactly while s <= r + 1, and to its own key. */
  lemma ResolvesUntilTheSecondRotation(minted: seq<Minted>, now: int, r: nat, s: nat)
    requires History(minted, now) && r <= s < |minted|
    ensures ByKid(KeysAfter(minted, s + 1), minted[r].kp.kid) ==
            if s <= r + 1 then Some(minted[r].kp.pub) else None
  {
  }

  /** What the cached keys of the first n mints answer. */
  lemma CachedIsByKid(minted: seq<Minted>, now: int, g: Gate, n: nat, kid: string)
    requires History(minted, now) && 1 <= n <= |minted| && g.haveKeys && g.keys == Usable(Jwks(KeysAfter(minted, n)))
    ensures forall i :: 0 <= i < |minted| && minted[i].kp.kid == kid ==>
              (Cached(g, kid) == if n - 2 <= i < n then Found(minted[i].kp.pub) else ErrUnknownKey)
    ensures Cached(g, kid).Found? ==> exists i :: 0 <= i < n && minted[i].kp == KeyPair(kid, Cached(g, kid).key)
  {
    UsableKeys(KeysAfter(minted, n));
    if Cached(g, kid).Found? {
      var i := if minted[n - 1].kp.kid == kid then n - 1 else n - 2;
      assert minted[i].kp == KeyPair(kid, Cached(g, kid).key);
    }
  }

  lemma AnswerIsCurrent(c: Config, w: World, n: nat, a: Answer)
    requires c.ttl > 0 && History(w.minted, w.now) && a.mintedAfter == |w.minted| && a.ended == w.now
    requires w.gate.haveKeys && 1 <= n <= |w.minted| && w.gate.keys == Usable(Jwks(KeysAfter(w.minted, n)))
    requires a.r == Cached(w.gate, a.kid) && a.mintedBefore <= |w.minted|
    requires a.fetchOk ==> LaterSince(w.minted, n, w.now - c.ttl - c.delay + 1)
    requires a.fetchOk ==> a.mintedBefore <= n || a.r.Found?
    ensures Current(c, w.minted, a)
  {
    CachedIsByKid(w.minted, w.now, w.gate, n, a.kid);
  }

  lemma AnswersStay(c: Config, w: World, more: seq<Minted>)
    requires forall k :: 0 <= k < |w.answers| ==> Current(c, w.minted, w.answers[k])
    ensures forall k :: 0 <= k < |w.answers| ==> Current(c, w.minted + more, w.answers[k])
  {
    forall k | 0 <= k < |w.answers|
      ensures Current(c, w.minted + more, w.answers[k])
    {
      var a := w.answers[k];
      assert Current(c, w.minted, a);
      if a.r.Found? {
        var i :| 0 <= i < a.mintedAfter && w.minted[i].kp == KeyPair(a.kid, a.r.key);
        assert (w.minted + more)[i].kp == KeyPair(a.kid, a.r.key);
      }
    }
  }

  lemma NewestStays(minted: seq<Minted>, i: Issuing, next: Minted)
    requires Newest(minted, i) && i.at <= next.at
    ensures Newest(minted + [next], i)
  {
  }

  lemma TokensStay(w: World, next: Minted)
    requires next.at == w.now
    requires forall k :: 0 <= k < |w.tokens| ==> Signed(w.minted, w.tokens[k]) && w.tokens[k].at <= w.now
    requires forall call :: call in w.issuing ==> Newest(w.minted, w.issuing[call]) && w.issuing[call].at <= w.now
    ensures forall k :: 0 <= k < |w.tokens| ==> Signed(w.minted + [next], w.tokens[k])
    ensures forall call :: call in w.issuing ==> Newest(w.minted + [next], w.issuing[call])
  {
    hide Newest;
    forall k | 0 <= k < |w.tokens|
      ensures Signed(w.minted + [next], w.tokens[k])
    {
      var t := w.tokens[k];
      assert Signed(w.minted, t);
      NewestStays(w.minted, Issuing(KeyPair(t.kid, t.signedBy), t.readAt, t.minted), next);
    }
    forall call | call in w.issuing
      ensures Newest(w.minted + [next], w.issuing[call])
    {
      NewestStays(w.minted, w.issuing[call], next);
    }
  }

  lemma InvRotate(c: Config, w: World, kp: KeyPair)
    requires Enabled(c, w, Rotate(kp)) && Inv(c, w)
    ensures Inv(c, Apply(c, w, Rotate(kp)))
  {
    AnswersStay(c, w, [Minted(kp, w.now)]);
    TokensStay(w, Minted(kp, w.now));
    hide Current, Newest, Signed;
    var w' := Apply(c, w, Rotate(kp));
    assert w.gate.haveKeys ==> KeysAfter(w'.minted, w.cachedAsOf) == KeysAfter(w.minted, w.cachedAsOf);
  }

  lemma InvReadKey(c: Config, w: World, call: nat)
    requires Enabled(c, w, ReadKey(call)) && Inv(c, w)
    ensures Inv(c, Apply(c, w, ReadKey(call)))
  {
    hide Current;
    assert Newest(w.minted, Issuing(w.keys.current, w.now, |w.minted|));
  }

  lemma InvSign(c: Config, w: World, call: nat)
    requires Enabled(c, w, Sign(call)) && Inv(c, w)
    ensures Inv(c, Apply(c, w, Sign(call)))
  {
    hide Current;
    var i := w.issuing[call];
    assert Issuing(KeyPair(i.kp.kid, i.kp.pub), i.at, i.minted) == i;
    assert Signed(w.minted, Token(i.kp.kid, i.kp.pub, i.at, w.now, i.minted));
  }

  lemma InvLook(c: Config, w: World, kid: string)
    requires c.ttl > 0 && Enabled(c, w, Look(kid)) && Inv(c, w)
    ensures Inv(c, Apply(c, w, Look(kid)))
  {
    hide Current;
    if !NeedsFetch(c.ttl, w.gate, kid, w.now) {
      var a := Answer(kid, w.now, |w.minted|, |w.minted|, true, Cached(w.gate, kid));
      AnswerIsCurrent(c, w, w.cachedAsOf, a);
    }
  }

  lemma InvFinish(c: Config, w: World, ok: bool)
    requires c.ttl > 0 && Enabled(c, w, Finish(ok)) && Inv(c, w)
    ensures Inv(c, Apply(c, w, Finish(ok)))
  {
    var w' := Apply(c, w, Finish(ok));
    var a := w'.answers[|w.answers|];
    if ok {
      UsableKeys(KeysAfter(w.minted, w.fetching.value.answer.value.minted));
      FinishedIsCurrent(c, w, w', a);
    } else if w.gate.haveKeys {
      AnswerIsCurrent(c, w', w.cachedAsOf, a);
    }
    LastAdded(c, w, w', a);
  }

  lemma FinishedIsCurrent(c: Config, w: World, w': World, a: Answer)
    requires c.ttl > 0 && Enabled(c, w, Finish(true)) && Inv(c, w) && w' == Apply(c, w, Finish(true))
    requires a == w'.answers[|w.answers|]
    requires Usable(w.fetching.value.answer.value.jwks) != map[]
    ensures Current(c, w'.minted, a)
  {
    AnswerIsCurrent(c, w', w.fetching.value.answer.value.minted, a);
  }

  lemma LastAdded(c: Config, w: World, w': World, a: Answer)
    requires forall k :: 0 <= k < |w.answers| ==> Current(c, w.minted, w.answers[k])
    requires w'.minted == w.minted && w'.answers == w.answers + [a] && Current(c, w.minted, a)
    ensures forall k :: 0 <= k < |w'.answers| ==> Current(c, w'.minted, w'.answers[k])
  {
    hide Current;
  }

  lemma InvStep(c: Config, w: World, a: Action)
    requires c.ttl > 0 && Enabled(c, w, a) && Inv(c, w)
    ensures Inv(c, Apply(c, w, a))
  {
    match a
    case Advance(to) =>
    case Rotate(kp) => InvRotate(c, w, kp);
    case ReadKey(call) => InvReadKey(c, w, call);
    case Sign(call) => InvSign(c, w, call);
    case Look(kid) => InvLook(c, w, kid);
    case Serve =>
    case Finish(ok) => InvFinish(c, w, ok);
  }

  lemma {:induction false} InvRun(c: Config, w: World, acts: seq<Action>, end: World)
    requires c.ttl > 0 && Run(c, w, acts, end) && Inv(c, w)
    ensures Inv(c, end)
    decreases |acts|
  {
    if acts != [] {
      InvStep(c, w, acts[0]);
      InvRun(c, Apply(c, w, acts[0]), acts[1..], end);
    }
  }

  /** In every run of rotations, tokens and gateway lookups, with rotations and time passing during a fetch: Identity
      publishes the newest two keys, and every lookup is Current. */
  lemma LookupsAreCurrent(c: Config, kp: KeyPair, start: int, acts: seq<Action>, w: World)
    requires c.ttl > 0 && Run(c, Start(kp, start), acts, w)
    ensures History(w.minted, w.now) && w.keys == KeysAfter(w.minted, |w.minted|)
    ensures forall k :: 0 <= k < |w.answers| ==> Current(c, w.minted, w.answers[k])
    ensures forall k :: 0 <= k < |w.tokens| ==> Signed(w.minted, w.tokens[k])
  {
    InvRun(c, Start(kp, start), acts, w);
  }

  /** Rotation without downtime: while rotations are at least a token's lifetime apart, and as much more as the token's
      call let pass between reading the key and the clock, every unexpired token resolves to the key that signed it, in
      Identity and in every gateway lookup of it that was not left with a failed fetch. */
  lemma LiveTokensResolve(c: Config, kp: KeyPair, start: int, acts: seq<Action>, w: World, lifetime: int, k: nat)
    requires c.ttl > 0 && Run(c, Start(kp, start), acts, w) && k < |w.tokens|
    requires var t := w.tokens[k];
             forall i :: 0 < i < |w.minted| - 1 ==> w.minted[i + 1].at - w.minted[i].at >= lifetime + t.at - t.readAt
    ensures var t := w.tokens[k];
      && (w.now < t.at + lifetime ==> ByKid(w.keys, t.kid) == Some(t.signedBy))
      && forall a :: (a in w.answers && a.kid == t.kid && a.fetchOk && t.minted <= a.mintedBefore
                      && a.ended < t.at + lifetime) ==> a.r == Found(t.signedBy)
  {
    LookupsAreCurrent(c, kp, start, acts, w);
    var t := w.tokens[k];
    assert Signed(w.minted, t);
    RetiredNoEarlier(w.minted, t, lifetime);
    forall a | a in w.answers && a.kid == t.kid && a.fetchOk && t.minted <= a.mintedBefore && a.ended < t.at + lifetime
      ensures a.r == Found(t.signedBy)
    {
      assert Current(c, w.minted, a);
      assert w.minted[t.minted - 1].kp.kid == a.kid;
    }
  }

  lemma RetiredNoEarlier(minted: seq<Minted>, t: Token, lifetime: int)
    requires Signed(minted, t)
    requires forall i :: 0 < i < |minted| - 1 ==> minted[i + 1].at - minted[i].at >= lifetime + t.at - t.readAt
    ensures t.minted + 1 < |minted| ==> minted[t.minted + 1].at >= t.at + lifetime
  {
    if t.minted + 1 < |minted| {
      assert minted[t.minted].at >= t.readAt;
      assert minted[t.minted + 1].at - minted[t.minted].at >= lifetime + t.at - t.readAt;
    }
  }
}
