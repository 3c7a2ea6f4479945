/** Retry around the breaker around the inner client, as the resilient client composes them. */
module Resilient {
  import opened Common
  import opened Breaker

  datatype Error =
    | CircuitOpen
    | Cancelled
    | Failure(code: int)
    | Permanent(cause: int)

  /** One round of Retry's loop as the world decides it: whether the context is already done, when the call starts and
      ends, what the inner client would return, and whether the context is done during the wait that may follow. */
  datatype Round<V> = Round(done: bool, start: int, end: int, value: V, err: Option<Error>, doneWaiting: bool)

  /** `value` is the closure's captured result; `reached` lists the rounds in which the inner client was called. */
  datatype Final<V> = Final(b: State, value: Option<V>, err: Option<Error>, reached: seq<nat>)

  /** Retry unwraps a permanent error before returning it. */
  function Unwrapped(e: Error): Error {
    if e.Permanent? then Failure(e.cause) else e
  }

  function Attempts(maxAttempts: int): nat {
    if maxAttempts < 1 then 1 else maxAttempts
  }

  /** One attempt through the breaker. */
  function Attempted<V>(c: Settings, b: State, r: Round<V>, i: nat, value: Option<V>): Final<V> {
    if Admits(c, b, r.start)
    then Final(Completed(c, Refreshed(c, b, r.start), r.end, r.err.None?), Some(r.value), r.err, [i])
    else Final(Refreshed(c, b, r.start), value, Some(CircuitOpen), [])
  }

  /** Rounds i, i + 1, ... of a call that has `left` attempts. */
  function Retried<V>(c: Settings, b: State, script: nat -> Round<V>, i: nat, left: nat, value: Option<V>): Final<V>
    requires left > 0
    decreases left
  {
    if script(i).done then Final(b, value, Some(Cancelled), [])
    else
      var f := Attempted(c, b, script(i), i, value);
      if f.err.None? then f
      else if f.err.value.Permanent? then f.(err := Some(Unwrapped(f.err.value)))
      else if left == 1 then f
      else if script(i).doneWaiting then f.(err := Some(Cancelled))
      else var rest := Retried(c, f.b, script, i + 1, left - 1, f.value); rest.(reached := f.reached + rest.reached)
  }

  /** breaker.Do around the closure that captures the inner client's result. */
  method Attempt<V>(breaker: Breaker, r: Round<V>, i: nat, value: Option<V>)
    returns (value': Option<V>, err: Option<Error>, ghost reached: seq<nat>)
    modifies breaker
    ensures Final(breaker.View(), value', err, reached) == Attempted(breaker.c, old(breaker.View()), r, i, value)
  {
    var admitted := breaker.Admit(r.start);
    if !admitted { return value, Some(CircuitOpen), []; }
    breaker.Complete(r.end, r.err.None?);
    return Some(r.value), r.err, [i];
  }

  /** The loop of Retry around the breaker's attempts. */
  method Retry<V>(breaker: Breaker, maxAttempts: int, script: nat -> Round<V>)
    returns (value: Option<V>, err: Option<Error>, ghost reached: seq<nat>)
    modifies breaker
    ensures Final(breaker.View(), value, err, reached)
            == Retried(breaker.c, old(breaker.View()), script, 0, Attempts(maxAttempts), None)
  {
    hide Retried, Attempted, Admits, Refreshed, Completed;
    var attempts: nat := if maxAttempts < 1 then 1 else maxAttempts;
    value, err, reached := None, None, [];
    ghost var goal := Retried(breaker.c, breaker.View(), script, 0, attempts, None);
    var i := 0;
    while true
      invariant 0 <= i < attempts
      invariant goal == Before(reached, Retried(breaker.c, breaker.View(), script, i, attempts - i, value))
      decreases attempts - i
    {
      ghost var b, v, before := breaker.View(), value, reached;
      OneRound(breaker.c, b, script, i, attempts - i, v);
      if script(i).done {
        err := Some(Cancelled);
        return;
      }
      ghost var tried;
      value, err, tried := Attempt(breaker, script(i), i, value);
      reached := before + tried;
      if err.None? { return; }
      if err.value.Permanent? {
        err := Some(Unwrapped(err.value));
        return;
      }
      if i == attempts - 1 { return; }
      if script(i).doneWaiting {
        err := Some(Cancelled);
        return;
      }
      i := i + 1;
    }
  }

  /** GenerateIdeas and Moderate alike. */
  method CallThrough<V>(breaker: Breaker, maxAttempts: int, script: nat -> Round<V>)
    returns (value: Option<V>, err: Option<Error>, ghost reached: seq<nat>)
    modifies breaker
    ensures Final(breaker.View(), value, err, reached)
            == Retried(breaker.c, old(breaker.View()), script, 0, Attempts(maxAttempts), None)
    // from closed, as long as the failures before it leave the circuit closed, the first round that does not fail
    // transiently decides, or else the last of max(1, maxAttempts)
    ensures forall k: nat ::
              breaker.c.Valid() && old(breaker.circuit) == Closed && old(breaker.failures) + k < breaker.c.maxFailures
              && (k == 0 || k < maxAttempts) && (forall j :: 0 <= j < k ==> FailsForNow(script(j))) ==>
                Decides(script(k), k, k + 1 >= maxAttempts, value, err, |reached|)
    // the inner client is called for min(max(1, maxAttempts), maxFailures - f) rounds that all fail, if no round comes
    // late enough for a trial
    ensures var f, n := old(breaker.failures), if maxAttempts < 1 then 1 else maxAttempts;
            breaker.c.Valid() && old(breaker.circuit) == Closed && f < breaker.c.maxFailures
            && (forall k: nat :: k < n ==> FailsForNow(script(k)))
            && (forall k: nat :: breaker.c.maxFailures - f <= k < n ==>
                  script(k).start - script(breaker.c.maxFailures - f - 1).end < breaker.c.openDuration) ==>
              |reached| == if n < breaker.c.maxFailures - f then n else breaker.c.maxFailures - f
  {
    EndsWith(breaker.c, breaker.View(), script, maxAttempts);
    hide Retried, FailsForNow, Decides;
    value, err, reached := Retry(breaker, maxAttempts, script);
  }

  /** The inner client fails in a way that is worth another try, and nobody cancels. */
  predicate FailsForNow<V>(r: Round<V>) {
    !r.done && !r.doneWaiting && r.err.Some? && !r.err.value.Permanent?
  }

  /** What round k makes of the call, when it gets that far: `last` is whether there is no attempt after it, `calls` how
      often the inner client has been called in the end. */
  predicate Decides<V(==)>(r: Round<V>, k: nat, last: bool, value: Option<V>, err: Option<Error>, calls: nat) {
    if r.done then err == Some(Cancelled) && calls == k
    else if r.err.None? then err == None && value == Some(r.value) && calls == k + 1
    else if r.err.value.Permanent? then err == Some(Failure(r.err.value.cause)) && calls == k + 1
    else if last then err == r.err && calls == k + 1
    else if r.doneWaiting then err == Some(Cancelled) && calls == k + 1
    else calls > k
  }

  /** After k rounds that failed for now, from closed. */
  lemma {:induction false} AfterFailures<V>(c: Settings, b: State, script: nat -> Round<V>, i: nat, left: nat, k: nat,
                                            value: Option<V>)
    requires c.Valid() && k < left && b.circuit == Closed && b.failures + k < c.maxFailures
    requires forall j :: i <= j < i + k ==> FailsForNow(script(j))
    ensures var f := Retried(c, b, script, i, left, value);
            Decides(script(i + k), k, k + 1 == left, f.value, f.err, |f.reached|)
    decreases k
  {
    if k > 0 {
      var f := Attempted(c, b, script(i), i, value);
      assert FailsForNow(script(i));
      AfterFailures(c, f.b, script, i + 1, left - 1, k - 1, f.value);
    }
  }

  lemma EndsWith<V>(c: Settings, b: State, script: nat -> Round<V>, maxAttempts: int)
    ensures var f := Retried(c, b, script, 0, Attempts(maxAttempts), None);
            forall k: nat ::
              c.Valid() && b.circuit == Closed && b.failures + k < c.maxFailures && (k == 0 || k < maxAttempts)
              && (forall j :: 0 <= j < k ==> FailsForNow(script(j))) ==>
                Decides(script(k), k, k + 1 >= maxAttempts, f.value, f.err, |f.reached|)
    ensures var n := if maxAttempts < 1 then 1 else maxAttempts;
            c.Valid() && b.circuit == Closed && b.failures < c.maxFailures
            && (forall k: nat :: k < n ==> FailsForNow(script(k)))
            && (forall k: nat :: c.maxFailures - b.failures <= k < n ==>
                  script(k).start - script(c.maxFailures - b.failures - 1).end < c.openDuration) ==>
              |Retried(c, b, script, 0, Attempts(maxAttempts), None).reached|
              == if n < c.maxFailures - b.failures then n else c.maxFailures - b.failures
  {
    var n := Attempts(maxAttempts);
    forall k: nat | c.Valid() && b.circuit == Closed && b.failures + k < c.maxFailures && (k == 0 || k < maxAttempts)
                    && forall j :: 0 <= j < k ==> FailsForNow(script(j))
      ensures var f := Retried(c, b, script, 0, n, None);
              Decides(script(k), k, k + 1 >= maxAttempts, f.value, f.err, |f.reached|)
    {
      AfterFailures(c, b, script, 0, n, k, None);
    }
    if c.Valid() && b.circuit == Closed && b.failures < c.maxFailures
       && (forall k: nat :: k < n ==> FailsForNow(script(k)))
       && (forall k: nat :: c.maxFailures - b.failures <= k < n ==>
             script(k).start - script(c.maxFailures - b.failures - 1).end < c.openDuration) {
      OneFailingCallReachesExactly(c, b, script, 0, n, None);
    }
  }

  function Before<V>(earlier: seq<nat>, f: Final<V>): Final<V> {
    f.(reached := earlier + f.reached)
  }

  lemma OneRound<V>(c: Settings, b: State, script: nat -> Round<V>, i: nat, left: nat, value: Option<V>)
    requires left > 0
    ensures var f := Attempted(c, b, script(i), i, value);
            Retried(c, b, script, i, left, value) ==
            if script(i).done then Final(b, value, Some(Cancelled), [])
            else if f.err.None? then f
            else if f.err.value.Permanent? then f.(err := Some(Unwrapped(f.err.value)))
            else if left == 1 then f
            else if script(i).doneWaiting then f.(err := Some(Cancelled))
            else Before(f.reached, Retried(c, f.b, script, i + 1, left - 1, f.value))
  {}

  /** A success is the inner client's own: its last call succeeded, its value is the one returned, and the breaker is
      closed with a clean count. */
  lemma {:induction false} SuccessIsTheLastCallsOwn<V>(c: Settings, b: State, script: nat -> Round<V>, i: nat,
      left: nat, value: Option<V>)
    requires left > 0
    ensures var f := Retried(c, b, script, i, left, value);
            && (f.err.None? ==>
                  && f.reached != []
                  && script(f.reached[|f.reached| - 1]).err.None?
                  && f.value == Some(script(f.reached[|f.reached| - 1]).value)
                  && f.b.circuit == Closed && f.b.failures == 0)
            && (f.err.Some? ==> !f.err.value.Permanent? && forall k :: k in f.reached ==> script(k).err.Some?)
            && (forall k :: 0 <= k < |f.reached| ==> i <= f.reached[k] < i + left)
    decreases left
  {
    var f := Attempted(c, b, script(i), i, value);
    if !script(i).done && f.err.Some? && !f.err.value.Permanent? && left > 1 && !script(i).doneWaiting {
      SuccessIsTheLastCallsOwn(c, f.b, script, i + 1, left - 1, f.value);
    }
  }

  /** Once the circuit is open, rounds that start within openDuration of the opening do not reach the inner client. */
  lemma {:induction false} OpenShutsOut<V>(c: Settings, b: State, script: nat -> Round<V>, i: nat, left: nat,
                                            value: Option<V>)
    requires left > 0 && b.circuit == Open
    requires forall k :: i <= k < i + left ==> script(k).start - b.openedAt < c.openDuration
    ensures Retried(c, b, script, i, left, value).reached == []
    ensures Retried(c, b, script, i, left, value).b == b
    ensures (forall k :: i <= k < i + left ==> !script(k).done && !script(k).doneWaiting) ==>
              Retried(c, b, script, i, left, value).err == Some(CircuitOpen)
    decreases left
  {
    if left > 1 { OpenShutsOut(c, b, script, i + 1, left - 1, value); }
  }

  /** One call from closed with f failures reaches the inner client at most min(MaxAttempts, maxFailures - f) times when
      its rounds after the opening all start within openDuration of it, whatever the inner client does. */
  lemma {:induction false} OneCallReachesAtMost<V>(c: Settings, b: State, script: nat -> Round<V>, i: nat, left: nat,
                                                   value: Option<V>)
    requires c.Valid() && left > 0 && b.circuit == Closed && b.failures < c.maxFailures
    requires var opening := i + c.maxFailures - b.failures - 1;
             forall k :: opening < k < i + left ==> script(k).start - script(opening).end < c.openDuration
    ensures |Retried(c, b, script, i, left, value).reached| <= left
    ensures |Retried(c, b, script, i, left, value).reached| <= c.maxFailures - b.failures
    decreases left
  {
    var f := Attempted(c, b, script(i), i, value);
    if !script(i).done && f.err.Some? && !f.err.value.Permanent? && left > 1 && !script(i).doneWaiting {
      if b.failures + 1 == c.maxFailures {
        OpenShutsOut(c, f.b, script, i + 1, left - 1, f.value);
      } else {
        OneCallReachesAtMost(c, f.b, script, i + 1, left - 1, f.value);
      }
    }
  }

  /** And exactly that many times when the inner client keeps failing transiently and nobody cancels. */
  lemma {:induction false} OneFailingCallReachesExactly<V>(c: Settings, b: State, script: nat -> Round<V>, i: nat,
      left: nat, value: Option<V>)
    requires c.Valid() && left > 0 && b.circuit == Closed && b.failures < c.maxFailures
    requires var opening := i + c.maxFailures - b.failures - 1;
             forall k :: opening < k < i + left ==> script(k).start - script(opening).end < c.openDuration
    requires forall k :: i <= k < i + left ==> FailsForNow(script(k))
    ensures var n := c.maxFailures - b.failures;
            |Retried(c, b, script, i, left, value).reached| == if left < n then left else n
    decreases left
  {
    var f := Attempted(c, b, script(i), i, value);
    assert FailsForNow(script(i));
    if left > 1 {
      if b.failures + 1 == c.maxFailures {
        OpenShutsOut(c, f.b, script, i + 1, left - 1, f.value);
      } else {
        OneFailingCallReachesExactly(c, f.b, script, i + 1, left - 1, f.value);
      }
    }
  }
}
