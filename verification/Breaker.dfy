/** The circuit breaker: its two locked halves, every interleaving of concurrent calls, and how often a failing
    dependency is still reached by calls that do not overlap. */
module Breaker {
  import opened Common

  datatype Circuit = Closed | Open | HalfOpen

  datatype Settings = Settings(maxFailures: int, openDuration: int) {
    predicate Valid() {
      maxFailures >= 1
    }
  }

  datatype State = State(failures: int, circuit: Circuit, openedAt: int)

  const NEW := State(0, Closed, 0)

  function NewSettings(maxFailures: int, openDuration: int): Settings {
    Settings(if maxFailures < 1 then 1 else maxFailures, openDuration)
  }

  function Refreshed(c: Settings, b: State, now: int): State {
    if b.circuit == Open && now - b.openedAt >= c.openDuration then b.(circuit := HalfOpen) else b
  }

  /** The first half of Do lets the call through. */
  predicate Admits(c: Settings, b: State, now: int) {
    Refreshed(c, b, now).circuit != Open
  }

  /** The second half of Do. */
  function Completed(c: Settings, b: State, now: int, ok: bool): State {
    if ok then State(0, Closed, b.openedAt)
    else if b.failures + 1 >= c.maxFailures || b.circuit == HalfOpen then State(b.failures + 1, Open, now)
    else b.(failures := b.failures + 1)
  }

  datatype DoResult = ErrOpen | Ran(ok: bool)

  class Breaker {
    const c: Settings
    var failures: int
    var circuit: Circuit
    var openedAt: int

    ghost function View(): State
      reads this
    {
      State(failures, circuit, openedAt)
    }

    constructor (maxFailures: int, openDuration: int)
      ensures c == NewSettings(maxFailures, openDuration) && c.Valid() && View() == NEW
      ensures failures == 0 && circuit == Closed && c.openDuration == openDuration
      ensures maxFailures >= 1 ==> c.maxFailures == maxFailures
      ensures maxFailures < 1 ==> c.maxFailures == 1
    {
      c := NewSettings(maxFailures, openDuration);
      failures, circuit, openedAt := 0, Closed, 0;
    }

    method Refresh(now: int)
      modifies this`circuit
      ensures View() == Refreshed(c, old(View()), now)
    {
      if circuit == Open && now - openedAt >= c.openDuration {
        circuit := HalfOpen;
      }
    }

    method Current(now: int) returns (s: Circuit)
      modifies this`circuit
      ensures View() == Refreshed(c, old(View()), now) && s == circuit
    {
      Refresh(now);
      s := circuit;
    }

    method Admit(now: int) returns (admitted: bool)
      modifies this`circuit
      ensures View() == Refreshed(c, old(View()), now)
      ensures admitted <==> Admits(c, old(View()), now)
    {
      Refresh(now);
      admitted := circuit != Open;
    }

    method Complete(now: int, ok: bool)
      modifies this
      ensures View() == Completed(c, old(View()), now, ok)
    {
      if !ok {
        failures := failures + 1;
        if failures >= c.maxFailures || circuit == HalfOpen {
          circuit := Open;
          openedAt := now;
        }
        return;
      }
      failures := 0;
      circuit := Closed;
    }

    /** Do with nothing else in between; `ok` is how fn would end. */
    method Do(start: int, end: int, ok: bool) returns (r: DoResult)
      modifies this
      ensures Admits(c, old(View()), start) ==>
                r == Ran(ok) && View() == Completed(c, Refreshed(c, old(View()), start), end, ok)
      ensures !Admits(c, old(View()), start) ==> r == ErrOpen && View() == Refreshed(c, old(View()), start)
    {
      var admitted := Admit(start);
      if !admitted { return ErrOpen; }
      Complete(end, ok);
      return Ran(ok);
    }
  }

  // ---- Every interleaving ----

  datatype Completion = Completion(at: int, ok: bool)

  /** `running` are the calls between their two halves; `done` is every completion in order. */
  datatype World = World(b: State, now: int, running: set<nat>, done: seq<Completion>)

  datatype Action =
    | Advance(to: int)
    | Begin(call: nat)
    | End(call: nat, ok: bool)
    | Look

  predicate Enabled(w: World, a: Action) {
    match a
    case Advance(to) => w.now <= to
    case Begin(call) => call !in w.running
    case End(call, _) => call in w.running
    case Look => true
  }

  function Apply(c: Settings, w: World, a: Action): World
    requires Enabled(w, a)
  {
    match a
    case Advance(to) => w.(now := to)
    case Begin(call) =>
      w.(b := Refreshed(c, w.b, w.now), running := if Admits(c, w.b, w.now) then w.running + {call} else w.running)
    case End(call, ok) =>
      w.(b := Completed(c, w.b, w.now, ok), running := w.running - {call}, done := w.done + [Completion(w.now, ok)])
    case Look => w.(b := Refreshed(c, w.b, w.now))
  }

  predicate Run(c: Settings, w: World, acts: seq<Action>, end: World)
    decreases |acts|
  {
    if acts == [] then end == w else Enabled(w, acts[0]) && Run(c, Apply(c, w, acts[0]), acts[1..], end)
  }

  function Start(now: int): World {
    World(NEW, now, {}, [])
  }

  /** Failed completions since the last successful one. */
  function FailuresInARow(done: seq<Completion>): nat {
    if done == [] || done[|done| - 1].ok then 0 else 1 + FailuresInARow(done[..|done| - 1])
  }

  ghost predicate Inv(c: Settings, w: World) {
    && w.b.failures == FailuresInARow(w.done)
    && (w.b.circuit == Closed <==> w.b.failures < c.maxFailures)
    && (w.b.circuit != Closed ==> w.done != [] && w.b.openedAt == w.done[|w.done| - 1].at)
    && (w.b.circuit == HalfOpen ==> w.now - w.b.openedAt >= c.openDuration)
  }

  lemma InvStep(c: Settings, w: World, a: Action)
    requires c.Valid() && Enabled(w, a) && Inv(c, w)
    ensures Inv(c, Apply(c, w, a))
  {
    if a.End? { OneMoreDone(w.done, Completion(w.now, a.ok)); }
    hide FailuresInARow;
  }

  lemma OneMoreDone(done: seq<Completion>, d: Completion)
    ensures FailuresInARow(done + [d]) == if d.ok then 0 else 1 + FailuresInARow(done)
  {
    assert (done + [d])[..|done|] == done;
  }

  lemma {:induction false} InvRun(c: Settings, w: World, acts: seq<Action>, end: World)
    requires c.Valid() && Run(c, w, acts, end) && Inv(c, w)
    ensures Inv(c, end)
    decreases |acts|
  {
    if acts != [] {
      InvStep(c, w, acts[0]);
      InvRun(c, Apply(c, w, acts[0]), acts[1..], end);
    }
  }

  /** In every interleaving the counter is the run of failed completions since the last success, the circuit is closed
      exactly while that is under maxFailures, and whether a call is let through depends on the completions alone:
      fewer than maxFailures in a row, or the last of them at least openDuration ago. */
  lemma BreakerIsItsHistory(c: Settings, start: int, acts: seq<Action>, w: World)
    requires c.Valid() && Run(c, Start(start), acts, w)
    ensures w.b.failures == FailuresInARow(w.done)
    ensures w.b.circuit == Closed <==> FailuresInARow(w.done) < c.maxFailures
    ensures Admits(c, w.b, w.now) <==>
            FailuresInARow(w.done) < c.maxFailures || w.now - w.done[|w.done| - 1].at >= c.openDuration
  {
    InvRun(c, Start(start), acts, w);
  }

  function Begins(first: nat, n: nat): seq<Action>
    decreases n
  {
    if n == 0 then [] else [Begin(first)] + Begins(first + 1, n - 1)
  }

  /** Sequential failing calls, one action pair each. */
  function Failing(n: nat): seq<Action> {
    if n == 0 then [] else [Begin(0), End(0, false)] + Failing(n - 1)
  }

  lemma {:induction false} FailuresOpen(c: Settings, w: World, n: nat) returns (end: World)
    requires c.Valid() && w.running == {} && w.b.circuit == Closed && w.b.failures + n == c.maxFailures && n > 0
    ensures Run(c, w, Failing(n), end) && end.running == {} && end.now == w.now
    ensures end.b == State(c.maxFailures, Open, w.now)
    decreases n
  {
    var w1 := Apply(c, w, Begin(0));
    var w2 := Apply(c, w1, End(0, false));
    assert w2.running == {};
    var acts := Failing(n);
    assert acts[1..] == [End(0, false)] + Failing(n - 1) && acts[1..][1..] == Failing(n - 1);
    if n == 1 {
      end := w2;
    } else {
      end := FailuresOpen(c, w2, n - 1);
    }
    assert Run(c, w1, acts[1..], end);
  }

  lemma {:induction false} RunsJoin(c: Settings, w: World, xs: seq<Action>, mid: World, ys: seq<Action>, end: World)
    requires Run(c, w, xs, mid) && Run(c, mid, ys, end)
    ensures Run(c, w, xs + ys, end)
    decreases |xs|
  {
    hide Apply, Enabled;
    if xs == [] {
      assert xs + ys == ys;
    } else {
      RunsJoin(c, Apply(c, w, xs[0]), xs[1..], mid, ys, end);
      assert (xs + ys)[1..] == xs[1..] + ys;
    }
  }

  lemma {:induction false} AllBegin(c: Settings, w: World, first: nat, n: nat) returns (end: World)
    requires Admits(c, w.b, w.now) && forall call :: first <= call ==> call !in w.running
    ensures Run(c, w, Begins(first, n), end)
    ensures w.running <= end.running && |end.running| == |w.running| + n
    ensures end.done == w.done && (n > 0 ==> end.b == Refreshed(c, w.b, w.now))
    decreases n
  {
    if n == 0 {
      end := w;
    } else {
      var w1 := Apply(c, w, Begin(first));
      end := AllBegin(c, w1, first + 1, n - 1);
      assert Begins(first, n)[1..] == Begins(first + 1, n - 1);
    }
  }

  /** The half-open circuit does not count its trials: under every configuration, after maxFailures failing calls and a
      wait of openDuration, any number of calls gets through before the first of them completes. */
  lemma TrialsAreNotCounted(c: Settings, start: int, n: nat) returns (acts: seq<Action>, end: World)
    requires c.Valid() && c.openDuration >= 0 && n > 0
    ensures acts == Failing(c.maxFailures) + [Advance(start + c.openDuration)] + Begins(0, n)
    ensures Run(c, Start(start), acts, end)
    ensures end.b.circuit == HalfOpen && |end.running| == n
  {
    var failed := FailuresOpen(c, Start(start), c.maxFailures);
    var wait := Advance(start + c.openDuration);
    var waited := Apply(c, failed, wait);
    assert Run(c, failed, [wait], waited) by { assert [wait][1..] == []; }
    end := AllBegin(c, waited, 0, n);
    RunsJoin(c, Start(start), Failing(c.maxFailures), failed, [wait], waited);
    RunsJoin(c, Start(start), Failing(c.maxFailures) + [wait], waited, Begins(0, n), end);
    acts := Failing(c.maxFailures) + [wait] + Begins(0, n);
  }

  // ---- Calls that do not overlap, on a dependency that always fails ----

  datatype Call = Call(start: int, end: int)

  predicate InOrder(calls: seq<Call>) {
    && (forall i :: 0 <= i < |calls| ==> calls[i].start <= calls[i].end)
    && (forall i :: 0 <= i < |calls| - 1 ==> calls[i].end <= calls[i + 1].start)
  }

  /** The start times of the calls that reach the dependency. */
  function Reaching(c: Settings, b: State, calls: seq<Call>): seq<int>
    decreases |calls|
  {
    if calls == [] then []
    else if Admits(c, b, calls[0].start) then
      [calls[0].start] + Reaching(c, Completed(c, Refreshed(c, b, calls[0].start), calls[0].end, false), calls[1..])
    else Reaching(c, Refreshed(c, b, calls[0].start), calls[1..])
  }

  lemma {:induction false} WhileOpenOneTrialPerWindow(c: Settings, b: State, calls: seq<Call>, t: int, j: nat)
    requires c.Valid() && InOrder(calls)
    requires b.circuit == Open && b.failures >= c.maxFailures && b.openedAt >= t + j * c.openDuration
    ensures forall i :: 0 <= i < |Reaching(c, b, calls)| ==>
              Reaching(c, b, calls)[i] >= t + (j + i + 1) * c.openDuration
    decreases |calls|
  {
    if calls != [] {
      var first, rest := calls[0], calls[1..];
      assert InOrder(rest);
      if Admits(c, b, first.start) {
        var b' := Completed(c, Refreshed(c, b, first.start), first.end, false);
        assert (j + 1) * c.openDuration == j * c.openDuration + c.openDuration;
        WhileOpenOneTrialPerWindow(c, b', rest, t, j + 1);
        var all, tail := Reaching(c, b, calls), Reaching(c, b', rest);
        assert all == [first.start] + tail;
        forall i | 0 <= i < |all|
          ensures all[i] >= t + (j + i + 1) * c.openDuration
        {
          if i > 0 { assert all[i] == tail[i - 1]; }
        }
      } else {
        WhileOpenOneTrialPerWindow(c, b, rest, t, j);
      }
    }
  }

  /** The calls that close in on maxFailures all get through; the last of them opens the circuit. */
  lemma {:induction false} UntilOpenAllReach(c: Settings, b: State, calls: seq<Call>) returns (b': State)
    requires c.Valid() && InOrder(calls) && b.circuit == Closed && b.failures < c.maxFailures <= b.failures + |calls|
    ensures var m := c.maxFailures - b.failures;
            && Reaching(c, b, calls) == Starts(calls[..m]) + Reaching(c, b', calls[m..])
            && b' == State(c.maxFailures, Open, calls[m - 1].end)
    decreases |calls|
  {
    var m := c.maxFailures - b.failures;
    var first, rest := calls[0], calls[1..];
    var b1 := Completed(c, b, first.end, false);
    assert InOrder(rest);
    assert Reaching(c, b, calls) == [first.start] + Reaching(c, b1, rest);
    assert Starts(calls[..m]) == [first.start] + Starts(rest[..m - 1]) by {
      assert calls[..m][0] == first && calls[..m][1..] == rest[..m - 1];
    }
    if m == 1 {
      b' := b1;
      assert rest[..0] == [];
      assert calls[1..] == rest;
    } else {
      b' := UntilOpenAllReach(c, b1, rest);
      assert rest[m - 1..] == calls[m..];
      assert [first.start] + (Starts(rest[..m - 1]) + Reaching(c, b', rest[m - 1..]))
          == ([first.start] + Starts(rest[..m - 1])) + Reaching(c, b', rest[m - 1..]);
    }
  }

  function Starts(calls: seq<Call>): (starts: seq<int>)
    ensures |starts| == |calls|
  {
    if calls == [] then [] else [calls[0].start] + Starts(calls[1..])
  }

  /** From closed with f failures, up to time T after the circuit opens, at most (maxFailures - f) + T / openDuration
      calls reach a dependency that always fails. */
  lemma FewCallsReachAFailingDependency(c: Settings, b: State, calls: seq<Call>, T: int, i: nat)
    requires c.Valid() && c.openDuration > 0 && T >= 0 && InOrder(calls)
    requires b.circuit == Closed && b.failures < c.maxFailures <= b.failures + |calls|
    requires i < |Reaching(c, b, calls)| && Reaching(c, b, calls)[i] <= calls[c.maxFailures - b.failures - 1].end + T
    ensures i + 1 <= c.maxFailures - b.failures + T / c.openDuration
  {
    var m := c.maxFailures - b.failures;
    var b' := UntilOpenAllReach(c, b, calls);
    var later, openTime := calls[m..], calls[m - 1].end;
    assert InOrder(later);
    hide Reaching, InOrder;
    AtMostTheQuotient(0, c.openDuration, T);
    if i >= m {
      assert Reaching(c, b', later)[i - m] == Reaching(c, b, calls)[i];
      TrialsFit(c, b', later, openTime, T, i - m);
    }
  }

  lemma TrialsFit(c: Settings, b: State, calls: seq<Call>, openTime: int, T: int, k: nat)
    requires c.Valid() && c.openDuration > 0 && InOrder(calls)
    requires b.circuit == Open && b.failures >= c.maxFailures && b.openedAt >= openTime
    requires k < |Reaching(c, b, calls)| && Reaching(c, b, calls)[k] <= openTime + T
    ensures k + 1 <= T / c.openDuration
  {
    WhileOpenOneTrialPerWindow(c, b, calls, openTime, 0);
    assert (k + 1) * c.openDuration <= T by { assert (0 + k + 1) * c.openDuration == (k + 1) * c.openDuration; }
    AtMostTheQuotient(k + 1, c.openDuration, T);
  }
}
