/** The gateway's fixed-window limiter: how many calls it lets through in any stretch of time, not only in the
    windows it happens to open. */
module RateLimit {

  datatype Bucket = Bucket(count: int, windowEnds: int)

  type Buckets = map<string, Bucket>

  datatype Config = Config(limit: int, window: int)

  predicate StartsAfresh(m: Buckets, key: string, now: int) {
    key !in m || now > m[key].windowEnds
  }

  predicate Allows(c: Config, m: Buckets, key: string, now: int) {
    c.limit <= 0 || StartsAfresh(m, key, now) || m[key].count < c.limit
  }

  function After(c: Config, m: Buckets, key: string, now: int): Buckets {
    if c.limit <= 0 then m
    else if StartsAfresh(m, key, now) then m[key := Bucket(1, now + c.window)]
    else if m[key].count < c.limit then m[key := m[key].(count := m[key].count + 1)]
    else m
  }

  class Window {
    const c: Config
    var buckets: Buckets

    constructor (limit: int, window: int)
      ensures c == Config(limit, window) && buckets == map[]
    {
      c := Config(limit, window);
      buckets := map[];
    }

    method Allow(key: string, now: int) returns (ok: bool)
      modifies this
      ensures ok <==> Allows(c, old(buckets), key, now)
      ensures buckets == After(c, old(buckets), key, now)
      ensures c.limit <= 0 ==> ok && buckets == old(buckets)
      ensures c.limit > 0 && (key !in old(buckets) || now > old(buckets)[key].windowEnds) ==>
                ok && buckets == old(buckets)[key := Bucket(1, now + c.window)]
      ensures c.limit > 0 && key in old(buckets) && now <= old(buckets)[key].windowEnds ==>
                var b := old(buckets)[key];
                && (ok <==> b.count < c.limit)
                && buckets == if ok then old(buckets)[key := Bucket(b.count + 1, b.windowEnds)] else old(buckets)
    {
      if c.limit <= 0 { return true; }
      if key !in buckets || now > buckets[key].windowEnds {
        buckets := buckets[key := Bucket(1, now + c.window)];
        return true;
      }
      var b := buckets[key];
      if b.count >= c.limit { return false; }
      buckets := buckets[key := b.(count := b.count + 1)];
      return true;
    }
  }

  // ---- Runs ----

  datatype Call = Call(key: string, at: int)

  ghost predicate InOrder(calls: seq<Call>) {
    forall i, j :: 0 <= i < j < |calls| ==> calls[i].at <= calls[j].at
  }

  function AfterAll(c: Config, m: Buckets, calls: seq<Call>): Buckets
    decreases |calls|
  {
    if calls == [] then m else AfterAll(c, After(c, m, calls[0].key, calls[0].at), calls[1..])
  }

  /** When the calls of `key` were let through. */
  function Allowed(c: Config, m: Buckets, calls: seq<Call>, key: string): seq<int>
    decreases |calls|
  {
    if calls == [] then []
    else
      var rest := Allowed(c, After(c, m, calls[0].key, calls[0].at), calls[1..], key);
      if calls[0].key == key && Allows(c, m, key, calls[0].at) then [calls[0].at] + rest else rest
  }

  /** How many of `times` lie in the closed interval from `a` to `b`. */
  function CountIn(times: seq<int>, a: int, b: int): nat {
    if times == [] then 0 else (if a <= times[0] <= b then 1 else 0) + CountIn(times[1..], a, b)
  }

  // ---- Windows of one key, read off the calls it allowed ----

  ghost predicate Ordered(times: seq<int>) {
    forall i, j :: 0 <= i < j < |times| ==> times[i] <= times[j]
  }

  /** `starts` are the indices in `times` that opened a window: each window holds 1 to limit calls and the next one
      opens only after it ended. */
  ghost predicate Windows(c: Config, times: seq<int>, starts: seq<nat>) {
    && (times == [] <==> starts == [])
    && (starts != [] ==> starts[0] == 0)
    && (forall j :: 0 <= j < |starts| ==> starts[j] < |times|)
    && (forall j :: 0 < j < |starts| ==> Follows(c, times, starts[j - 1], starts[j]))
    && (starts != [] ==> |times| <= starts[|starts| - 1] + c.limit)
  }

  ghost predicate Follows(c: Config, times: seq<int>, s: nat, next: nat) {
    s < next <= s + c.limit && next < |times| && times[next] > times[s] + c.window
  }

  /** The key's bucket is the last of those windows. */
  ghost predicate Tracks(c: Config, m: Buckets, key: string, times: seq<int>, starts: seq<nat>) {
    && Ordered(times)
    && Windows(c, times, starts)
    && (key in m <==> starts != [])
    && (key in m ==> m[key] == Bucket(|times| - starts[|starts| - 1], times[starts[|starts| - 1]] + c.window))
  }

  lemma TracksStep(c: Config, m: Buckets, key: string, times: seq<int>, starts: seq<nat>, now: int)
      returns (starts': seq<nat>)
    requires c.limit > 0 && c.window >= 0 && Tracks(c, m, key, times, starts)
    requires forall i :: 0 <= i < |times| ==> times[i] <= now
    ensures Tracks(c, After(c, m, key, now), key, if Allows(c, m, key, now) then times + [now] else times, starts')
  {
    starts' := if StartsAfresh(m, key, now) then starts + [|times|] else starts;
    if Allows(c, m, key, now) {
      if StartsAfresh(m, key, now) { WindowOpens(c, times, starts, now); } else { WindowCounts(c, times, starts, now); }
      hide Windows;
    }
  }

  lemma WindowOpens(c: Config, times: seq<int>, starts: seq<nat>, now: int)
    requires c.limit > 0 && Windows(c, times, starts)
    requires starts != [] ==> now > times[starts[|starts| - 1]] + c.window
    ensures Windows(c, times + [now], starts + [|times|])
  {
    var times', starts' := times + [now], starts + [|times|];
    forall j | 0 < j < |starts'|
      ensures Follows(c, times', starts'[j - 1], starts'[j])
    {
      if j < |starts| { assert Follows(c, times, starts[j - 1], starts[j]); }
    }
  }

  lemma WindowCounts(c: Config, times: seq<int>, starts: seq<nat>, now: int)
    requires Windows(c, times, starts) && starts != [] && |times| < starts[|starts| - 1] + c.limit
    ensures Windows(c, times + [now], starts)
  {
    forall j | 0 < j < |starts|
      ensures Follows(c, times + [now], starts[j - 1], starts[j])
    {
      assert Follows(c, times, starts[j - 1], starts[j]);
    }
  }

  lemma {:induction false} TracksRun(c: Config, m: Buckets, calls: seq<Call>, key: string, times: seq<int>,
                                     starts: seq<nat>)
      returns (starts': seq<nat>)
    requires c.limit > 0 && c.window >= 0 && Tracks(c, m, key, times, starts) && InOrder(calls)
    requires forall i, j :: 0 <= i < |times| && 0 <= j < |calls| ==> times[i] <= calls[j].at
    ensures Tracks(c, AfterAll(c, m, calls), key, times + Allowed(c, m, calls, key), starts')
    decreases |calls|
  {
    hide Tracks;
    if calls == [] {
      assert times + [] == times;
      starts' := starts;
    } else {
      var now, rest := calls[0].at, calls[1..];
      var m' := After(c, m, calls[0].key, now);
      assert forall j :: 0 <= j < |rest| ==> rest[j] == calls[j + 1];
      if calls[0].key == key {
        var starts1 := TracksStep(c, m, key, times, starts, now);
        var times1 := if Allows(c, m, key, now) then times + [now] else times;
        starts' := TracksRun(c, m', rest, key, times1, starts1);
        assert times + Allowed(c, m, calls, key) == times1 + Allowed(c, m', rest, key);
      } else {
        OtherKeysStay(c, m, calls[0].key, key, now, times, starts);
        starts' := TracksRun(c, m', rest, key, times, starts);
      }
    }
  }

  lemma TracksFromStart(c: Config, calls: seq<Call>, key: string) returns (starts: seq<nat>)
    requires c.limit > 0 && c.window >= 0 && InOrder(calls)
    ensures Tracks(c, AfterAll(c, map[], calls), key, Allowed(c, map[], calls, key), starts)
  {
    hide AfterAll, Allowed;
    starts := TracksRun(c, map[], calls, key, [], []);
    assert [] + Allowed(c, map[], calls, key) == Allowed(c, map[], calls, key);
  }

  lemma OtherKeysStay(c: Config, m: Buckets, other: string, key: string, now: int, times: seq<int>, starts: seq<nat>)
    requires other != key && Tracks(c, m, key, times, starts)
    ensures Tracks(c, After(c, m, other, now), key, times, starts)
  {
  }

  // ---- The bound ----

  /** k windows after the one that opened at starts[j], more than k window lengths have passed. */
  lemma {:induction false} WindowsApart(c: Config, times: seq<int>, starts: seq<nat>, j: nat, k: nat)
    requires Windows(c, times, starts) && j + k < |starts|
    ensures starts[j + k] <= starts[j] + k * c.limit
    ensures times[starts[j + k]] >= times[starts[j]] + k * c.window + (if k > 0 then 1 else 0)
    decreases k
  {
    if k > 0 {
      WindowsApart(c, times, starts, j, k - 1);
      assert Follows(c, times, starts[j + k - 1], starts[j + k]);
      assert (k - 1) * c.limit == k * c.limit - c.limit;
      assert (k - 1) * c.window == k * c.window - c.window;
    }
  }

  /** The window that holds the call at index i. */
  lemma {:induction false} WindowOf(c: Config, times: seq<int>, starts: seq<nat>, i: nat, n: nat) returns (j: nat)
    requires Windows(c, times, starts) && i < |times| && n < |starts| && (n + 1 < |starts| ==> i < starts[n + 1])
    ensures j < |starts| && starts[j] <= i && (j + 1 < |starts| ==> i < starts[j + 1])
    decreases n
  {
    if starts[n] <= i { j := n; } else { j := WindowOf(c, times, starts, i, n - 1); }
  }

  /** Too few windows to hold this many calls. */
  lemma LastWindowHoldsTheRest(c: Config, times: seq<int>, starts: seq<nat>, j: nat, k: nat)
    requires Windows(c, times, starts) && j < |starts| <= j + k
    ensures |times| <= starts[j] + k * c.limit
  {
    var last := |starts| - 1 - j;
    WindowsApart(c, times, starts, j, last);
    if c.limit >= 0 {
      var d := k - 1 - last;
      assert (last + 1 + d) * c.limit == last * c.limit + c.limit + d * c.limit;
      assert d * c.limit >= 0;
    }
  }

  /** Of any (k+1) * limit allowed calls in a row, the last is more than k windows after the first. */
  lemma CallsApart(c: Config, times: seq<int>, starts: seq<nat>, i: nat, k: nat)
    requires c.limit > 0 && c.window >= 0 && Ordered(times) && Windows(c, times, starts) && k >= 1
    requires i + (k + 1) * c.limit - 1 < |times|
    ensures times[i + (k + 1) * c.limit - 1] > times[i] + k * c.window
  {
    var e := i + (k + 1) * c.limit - 1;
    assert (k + 1) * c.limit == k * c.limit + c.limit;
    assert k * c.limit >= c.limit by { OneLess(k, c.limit); }
    var j := WindowOf(c, times, starts, i, |starts| - 1);
    var from := if starts[j] == i then j else j + 1;
    if from == |starts| {
      assert false;
    }
    if j < from { assert Follows(c, times, starts[j], starts[from]); }
    if |starts| <= from + k { LastWindowHoldsTheRest(c, times, starts, from, k); assert false; }
    WindowsApart(c, times, starts, from, k);
    assert times[i] <= times[starts[from]];
    assert times[starts[from + k]] <= times[e];
  }

  /** In an ordered log the calls inside an interval are consecutive. */
  lemma {:induction false} CountedAreConsecutive(times: seq<int>, a: int, b: int) returns (i: nat)
    requires Ordered(times)
    ensures i + CountIn(times, a, b) <= |times|
    ensures forall j :: i <= j < i + CountIn(times, a, b) ==> a <= times[j] <= b
    ensures CountIn(times, a, b) > 0 && times[0] >= a ==> i == 0
  {
    if times == [] || CountIn(times, a, b) == 0 {
      i := 0;
    } else {
      var i' := CountedAreConsecutive(times[1..], a, b);
      i := if a <= times[0] <= b then 0 else i' + 1;
      if a <= times[0] <= b && CountIn(times[1..], a, b) > 0 {
        assert times[1] >= a;
        assert i' == 0;
      }
      forall j | i <= j < i + CountIn(times, a, b)
        ensures a <= times[j] <= b
      {
        if j > 0 { assert times[j] == times[1..][j - 1]; }
      }
    }
  }

  lemma FewInAnyInterval(c: Config, times: seq<int>, starts: seq<nat>, a: int, b: int, k: nat)
    requires c.limit > 0 && c.window >= 0 && Ordered(times) && Windows(c, times, starts)
    requires k >= 1 && b - a <= k * c.window
    ensures CountIn(times, a, b) <= (k + 1) * c.limit - 1
  {
    hide Windows, Ordered;
    var n, m := CountIn(times, a, b), (k + 1) * c.limit;
    var i := CountedAreConsecutive(times, a, b);
    if n >= m {
      assert m >= 1 by { assert k * c.limit >= 0; assert m == k * c.limit + c.limit; }
      hide CountIn;
      var last := i + m - 1;
      var from, to := times[i], times[last];
      CallsApart(c, times, starts, i, k);
      assert false;
    }
  }

  /** In every run, any closed interval no longer than k windows holds fewer than (k+1) * limit allowed calls of a
      key. */
  lemma AllowedInAnyInterval(c: Config, calls: seq<Call>, key: string, a: int, b: int, k: nat)
    requires c.limit > 0 && c.window >= 0 && InOrder(calls) && k >= 1 && b - a <= k * c.window
    ensures CountIn(Allowed(c, map[], calls, key), a, b) <= (k + 1) * c.limit - 1
  {
    var times := Allowed(c, map[], calls, key);
    var starts := TracksFromStart(c, calls, key);
    FewInAnyInterval(c, times, starts, a, b, k);
  }

  /** A key is refused only by a window that has let through exactly `limit` calls and has not ended: the key's last
      `limit` allowed calls, all of them at most one window length old. */
  lemma RefusedOnlyWhenFull(c: Config, calls: seq<Call>, key: string, now: int)
    requires c.limit > 0 && c.window >= 0 && InOrder(calls)
    requires !Allows(c, AfterAll(c, map[], calls), key, now)
    ensures var times := Allowed(c, map[], calls, key);
      && |times| >= c.limit && times[|times| - c.limit] >= now - c.window
      && key in AfterAll(c, map[], calls)
      && AfterAll(c, map[], calls)[key] == Bucket(c.limit, times[|times| - c.limit] + c.window)
  {
    hide Allowed, AfterAll, InOrder, Allows, Tracks;
    var times := Allowed(c, map[], calls, key);
    var starts := TracksFromStart(c, calls, key);
    FullWindow(c, AfterAll(c, map[], calls), key, times, starts, now);
  }

  lemma FullWindow(c: Config, m: Buckets, key: string, times: seq<int>, starts: seq<nat>, now: int)
    requires c.limit > 0 && c.window >= 0 && Tracks(c, m, key, times, starts) && !Allows(c, m, key, now)
    ensures |times| >= c.limit && times[|times| - c.limit] >= now - c.window
    ensures key in m && m[key] == Bucket(c.limit, times[|times| - c.limit] + c.window)
  {
  }

  // ---- The bound is reached ----

  function Burst(key: string, at: int, n: nat): seq<Call> {
    if n == 0 then [] else [Call(key, at)] + Burst(key, at, n - 1)
  }

  /** Full windows, each opened one instant after the last one ended. */
  function Bursts(c: Config, key: string, at: int, k: nat): seq<Call>
    requires c.limit > 0
    decreases k
  {
    if k == 0 then [] else Burst(key, at, c.limit) + Bursts(c, key, at + c.window + 1, k - 1)
  }

  /** One call opens a window at 0, limit - 1 more come at its last instant, then k full windows follow. */
  function Worst(c: Config, key: string, k: nat): seq<Call>
    requires c.limit > 0
  {
    [Call(key, 0)] + Burst(key, c.window, c.limit - 1) + Bursts(c, key, c.window + 1, k)
  }

  lemma {:induction false} RunsConcat(c: Config, m: Buckets, xs: seq<Call>, ys: seq<Call>, key: string)
    ensures AfterAll(c, m, xs + ys) == AfterAll(c, AfterAll(c, m, xs), ys)
    ensures Allowed(c, m, xs + ys, key) == Allowed(c, m, xs, key) + Allowed(c, AfterAll(c, m, xs), ys, key)
    decreases |xs|
  {
    if xs == [] {
      assert xs + ys == ys;
    } else {
      var m' := After(c, m, xs[0].key, xs[0].at);
      RunsConcat(c, m', xs[1..], ys, key);
      assert (xs + ys)[1..] == xs[1..] + ys;
      assert Allowed(c, m, xs + ys, key) == Allowed(c, m, xs, key) + Allowed(c, AfterAll(c, m', xs[1..]), ys, key);
    }
  }

  lemma {:induction false} CountConcat(xs: seq<int>, ys: seq<int>, a: int, b: int)
    ensures CountIn(xs + ys, a, b) == CountIn(xs, a, b) + CountIn(ys, a, b)
  {
    if xs == [] {
      assert xs + ys == ys;
    } else {
      assert (xs + ys)[1..] == xs[1..] + ys;
      CountConcat(xs[1..], ys, a, b);
    }
  }

  lemma {:induction false} OrderedConcat(xs: seq<Call>, ys: seq<Call>, t: int)
    requires InOrder(xs) && InOrder(ys)
    requires (forall i :: 0 <= i < |xs| ==> xs[i].at <= t) && forall i :: 0 <= i < |ys| ==> t <= ys[i].at
    ensures InOrder(xs + ys)
  {
  }

  lemma {:induction false} BurstShape(key: string, at: int, n: nat)
    ensures |Burst(key, at, n)| == n && InOrder(Burst(key, at, n))
    ensures forall i :: 0 <= i < n ==> Burst(key, at, n)[i] == Call(key, at)
  {
    if n > 0 { BurstShape(key, at, n - 1); }
  }

  lemma {:induction false} BurstFills(c: Config, m: Buckets, key: string, at: int, n: nat, a: int, b: int)
    requires c.limit > 0 && key in m && at <= m[key].windowEnds && m[key].count + n <= c.limit && a <= at <= b
    ensures var m' := AfterAll(c, m, Burst(key, at, n));
      key in m' && m'[key] == Bucket(m[key].count + n, m[key].windowEnds)
    ensures CountIn(Allowed(c, m, Burst(key, at, n), key), a, b) == n
    decreases n
  {
    if n > 0 {
      assert Burst(key, at, n)[1..] == Burst(key, at, n - 1);
      BurstFills(c, After(c, m, key, at), key, at, n - 1, a, b);
    }
  }

  lemma OneLess(k: nat, x: int)
    requires k > 0 && x >= 0
    ensures (k - 1) * x == k * x - x && (k - 1) * x >= 0
  {
  }

  lemma {:induction false} BurstsInOrder(c: Config, key: string, at: int, k: nat)
    requires c.limit > 0 && c.window >= 0
    ensures InOrder(Bursts(c, key, at, k)) && forall call :: call in Bursts(c, key, at, k) ==> at <= call.at
    decreases k
  {
    if k > 0 {
      BurstShape(key, at, c.limit);
      BurstsInOrder(c, key, at + c.window + 1, k - 1);
      OrderedConcat(Burst(key, at, c.limit), Bursts(c, key, at + c.window + 1, k - 1), at);
    }
  }

  /** A full window that opens now. */
  lemma BurstOpens(c: Config, m: Buckets, key: string, at: int, a: int, b: int)
    requires c.limit > 0 && c.window >= 0 && StartsAfresh(m, key, at) && a <= at <= b
    ensures var m' := AfterAll(c, m, Burst(key, at, c.limit));
      key in m' && m'[key] == Bucket(c.limit, at + c.window)
    ensures CountIn(Allowed(c, m, Burst(key, at, c.limit), key), a, b) == c.limit
  {
    assert Burst(key, at, c.limit)[1..] == Burst(key, at, c.limit - 1);
    BurstFills(c, After(c, m, key, at), key, at, c.limit - 1, a, b);
  }

  lemma {:induction false} BurstsFill(c: Config, m: Buckets, key: string, at: int, k: nat, a: int, b: int)
    requires c.limit > 0 && c.window >= 0 && StartsAfresh(m, key, at)
    requires a <= at && at + k * (c.window + 1) <= b + c.window + 1
    ensures CountIn(Allowed(c, m, Bursts(c, key, at, k), key), a, b) == k * c.limit
    decreases k
  {
    if k > 0 {
      hide Allowed, AfterAll, CountIn, Burst;
      OneLess(k, c.window + 1);
      OneLess(k, c.limit);
      var first, rest := Burst(key, at, c.limit), Bursts(c, key, at + c.window + 1, k - 1);
      BurstOpens(c, m, key, at, a, b);
      RunsConcat(c, m, first, rest, key);
      BurstsFill(c, AfterAll(c, m, first), key, at + c.window + 1, k - 1, a, b);
      CountConcat(Allowed(c, m, first, key), Allowed(c, AfterAll(c, m, first), rest, key), a, b);
    } else {
      assert Allowed(c, m, Bursts(c, key, at, k), key) == [];
    }
  }

  lemma OneInOrder(call: Call)
    ensures InOrder([call])
  {
  }

  lemma WorstInOrder(c: Config, key: string, k: nat)
    requires c.limit > 0 && c.window >= 0
    ensures InOrder(Worst(c, key, k))
  {
    hide Burst, Bursts;
    var first, late, full := [Call(key, 0)], Burst(key, c.window, c.limit - 1), Bursts(c, key, c.window + 1, k);
    BurstShape(key, c.window, c.limit - 1);
    BurstsInOrder(c, key, c.window + 1, k);
    hide InOrder;
    assert InOrder(first) by { OneInOrder(Call(key, 0)); }
    OrderedConcat(first, late, c.window);
    OrderedConcat(first + late, full, c.window);
  }

  /** No smaller bound holds: for every limit and every k up to the window's length in clock units there is a run with
      (k+1) * limit - 1 allowed calls in a closed interval of k windows. For k = 1 that is nearly twice the "at most
      limit calls per window" of the type's own comment. */
  lemma BoundIsReached(c: Config, key: string, k: nat)
    requires c.limit > 0 && 1 <= k <= c.window
    ensures InOrder(Worst(c, key, k))
    ensures CountIn(Allowed(c, map[], Worst(c, key, k), key), c.window, c.window + k * c.window)
         == (k + 1) * c.limit - 1
  {
    hide Allowed, AfterAll, CountIn, Burst, Bursts, InOrder;
    WorstInOrder(c, key, k);
    var W, a, b := c.window, c.window, c.window + k * c.window;
    var late, full := Burst(key, W, c.limit - 1), Bursts(c, key, W + 1, k);
    var m1 := map[key := Bucket(1, W)];
    FirstOpens(c, key);
    BurstFills(c, m1, key, W, c.limit - 1, a, b);
    var m2 := AfterAll(c, m1, late);
    assert k * (W + 1) == k * W + k;
    BurstsFill(c, m2, key, W + 1, k, a, b);
    assert Worst(c, key, k) == [Call(key, 0)] + (late + full);
    RunsConcat(c, map[], [Call(key, 0)], late + full, key);
    RunsConcat(c, m1, late, full, key);
    CountConcat([0], Allowed(c, m1, late + full, key), a, b);
    CountConcat(Allowed(c, m1, late, key), Allowed(c, m2, full, key), a, b);
    assert CountIn([0], a, b) == 0 by { CountOne(0, a, b); }
    assert (k + 1) * c.limit == k * c.limit + c.limit;
  }

  lemma CountOne(t: int, a: int, b: int)
    ensures CountIn([t], a, b) == if a <= t <= b then 1 else 0
  {
    assert [t][1..] == [];
  }

  lemma FirstOpens(c: Config, key: string)
    requires c.limit > 0
    ensures AfterAll(c, map[], [Call(key, 0)]) == map[key := Bucket(1, c.window)]
    ensures Allowed(c, map[], [Call(key, 0)], key) == [0]
  {
    var calls := [Call(key, 0)];
    assert calls[1..] == [];
    assert After(c, map[], key, 0) == map[key := Bucket(1, c.window)];
    assert AfterAll(c, map[key := Bucket(1, c.window)], calls[1..]) == map[key := Bucket(1, c.window)];
  }

  // ---- The comment's own bound ----

  /** At most `limit` calls in whatever stretch of one window's length. */
  ghost predicate LimitHoldsAnywhere(c: Config) {
    forall calls, key, a, b :: InOrder(calls) && b - a <= c.window ==>
      CountIn(Allowed(c, map[], calls, key), a, b) <= c.limit
  }

  /** Of windows with a length, only those of one call keep the limit in every stretch. */
  lemma LimitHoldsAnywhereIff(c: Config)
    requires c.limit > 0 && c.window >= 0
    ensures LimitHoldsAnywhere(c) <==> c.limit == 1 || c.window == 0
  {
    hide Allowed, CountIn, InOrder, Worst;
    if c.limit > 1 && c.window > 0 {
      BoundIsReached(c, "", 1);
      assert InOrder(Worst(c, "", 1));
    }
    forall calls, key, a, b | (c.limit == 1 || c.window == 0) && InOrder(calls) && b - a <= c.window
      ensures CountIn(Allowed(c, map[], calls, key), a, b) <= c.limit
    {
      if c.limit == 1 {
        AllowedInAnyInterval(c, calls, key, a, b, 1);
      } else {
        FewAtOneInstant(c, map[], calls, key, a, b);
      }
    }
  }

  lemma {:induction false} NoneBefore(c: Config, m: Buckets, calls: seq<Call>, key: string, a: int, b: int)
    requires forall i :: 0 <= i < |calls| ==> b < calls[i].at
    ensures CountIn(Allowed(c, m, calls, key), a, b) == 0
    decreases |calls|
  {
    if calls != [] { NoneBefore(c, After(c, m, calls[0].key, calls[0].at), calls[1..], key, a, b); }
  }

  /** The calls at `at` that the open window has already counted. */
  function Counted(m: Buckets, key: string, at: int): int {
    if key in m && m[key].windowEnds == at then m[key].count else 0
  }

  /** A window of no length is full at its limit and ends with the instant. */
  lemma {:induction false} FewAtOneInstant(c: Config, m: Buckets, calls: seq<Call>, key: string, a: int, b: int)
    requires c.limit > 0 && c.window == 0 && InOrder(calls) && b <= a && Counted(m, key, a) <= c.limit
    requires key in m ==> forall i :: 0 <= i < |calls| ==> m[key].windowEnds <= calls[i].at
    ensures CountIn(Allowed(c, m, calls, key), a, b) <= c.limit - Counted(m, key, a)
    decreases |calls|
  {
    if calls != [] {
      var m' := After(c, m, calls[0].key, calls[0].at);
      if a < calls[0].at {
        NoneBefore(c, m, calls, key, a, b);
      } else {
        FewAtOneInstant(c, m', calls[1..], key, a, b);
      }
    }
  }
}
