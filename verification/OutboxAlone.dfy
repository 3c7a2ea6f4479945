/** The worker's statements against the sequential pass: a claimed row worked with nothing in between ends, table and
    devices alike, as Dispatcher.Dispatch leaves it. */
module OutboxAlone {
  import opened Outbox
  import opened OutboxService
  import opened OutboxProtocol

  /** Trying device i, and deactivating by its token when that is reported invalid. */
  function TryOne(k: Ticket, device: DeviceKey, w: Weather): seq<Action> {
    var result := w.push(device);
    [Push(k, result)] +
    if result == InvalidToken && w.deactivateOk(device.token) then [Deactivate(device.token)] else []
  }

  function TryAll(k: Ticket, devices: seq<DeviceKey>, w: Weather): seq<Action> {
    if devices == [] then [] else TryOne(k, devices[0], w) + TryAll(k, devices[1..], w)
  }

  /** One whole pass, over the devices in the order listed. */
  function Pass(k: Ticket, listing: seq<DeviceKey>, w: Weather): seq<Action> {
    [Advance(w.clock)] +
    (if w.resolveOk then [Resolve(k, listing)] + TryAll(k, listing, w) else [FailToResolve(k)]) +
    [if w.commitOk then Finalise(k, w.clock) else Drop(k)]
  }

  lemma {:induction false} RunsJoin(cfg: Config, s: State, xs: seq<Action>, mid: State, ys: seq<Action>, end: State)
    requires Run(cfg, s, xs, mid) && Run(cfg, mid, ys, end)
    ensures Run(cfg, s, xs + ys, end)
    decreases |xs|
  {
    hide Apply, Enabled;
    if xs == [] {
      assert xs + ys == ys;
    } else {
      assert (xs + ys)[1..] == xs[1..] + ys;
      RunsJoin(cfg, Apply(cfg, s, xs[0]), xs[1..], mid, ys, end);
    }
  }

  lemma OneStep(cfg: Config, s: State, a: Action)
    requires Enabled(s, a)
    ensures Run(cfg, s, [a], Apply(cfg, s, a))
  {
    hide Apply, Enabled;
    assert [a][1..] == [];
    assert Run(cfg, Apply(cfg, s, a), [], Apply(cfg, s, a));
  }

  /** The worker of k has tried the first i devices of its listing. */
  ghost predicate Midway(s: State, k: Ticket, hold: Hold, t: Table, ds: Devices, listing: seq<DeviceKey>, i: nat,
                         w: Weather, now: int)
  {
    && i <= |listing| && s.now == now && s.rows == t && s.devices == Pruned(ds, listing[..i], w)
    && k in s.holds && s.holds[k] == hold.(phase := s.holds[k].phase)
    && s.holds[k].phase.Pushing? && s.holds[k].phase.devices == listing
    && |s.holds[k].phase.results| == i
    && forall j :: 0 <= j < i ==> s.holds[k].phase.results[j] == w.push(listing[j])
  }

  lemma TryOneRuns(cfg: Config, s: State, k: Ticket, hold: Hold, t: Table, ds: Devices, listing: seq<DeviceKey>,
                   i: nat, w: Weather, now: int)
      returns (s': State)
    requires Midway(s, k, hold, t, ds, listing, i, w, now) && i < |listing|
    ensures Run(cfg, s, TryOne(k, listing[i], w), s') && Midway(s', k, hold, t, ds, listing, i + 1, w, now)
  {
    var result := w.push(listing[i]);
    var a, b := Push(k, result), Deactivate(listing[i].token);
    s' := Apply(cfg, s, a);
    OneStep(cfg, s, a);
    Pushed(cfg, s, k, hold, t, ds, listing, i, w, now);
    hide Run, Midway, Apply, Deactivated;
    if result == InvalidToken && w.deactivateOk(listing[i].token) {
      var s'' := Apply(cfg, s', b);
      OneStep(cfg, s', b);
      assert s''.devices == Deactivated(s'.devices, listing[i].token) && s'' == s'.(devices := s''.devices) by {
        DeactivateStep(cfg, s', listing[i].token);
      }
      RunsJoin(cfg, s, [a], s', [b], s'');
      s' := s'';
    } else {
      assert s'.(devices := s'.devices) == s';
      assert [a] + [] == [a];
    }
  }

  lemma DeactivateStep(cfg: Config, s: State, token: string)
    ensures Apply(cfg, s, Deactivate(token)) == s.(devices := Deactivated(s.devices, token))
  {}

  /** After the push only what the provider's answer asks for is missing. */
  lemma Pushed(cfg: Config, s: State, k: Ticket, hold: Hold, t: Table, ds: Devices, listing: seq<DeviceKey>, i: nat,
               w: Weather, now: int)
    requires Midway(s, k, hold, t, ds, listing, i, w, now) && i < |listing|
    ensures var result, token := w.push(listing[i]), listing[i].token;
            var s' := Apply(cfg, s, Push(k, result));
            var after := if result == InvalidToken && w.deactivateOk(token) then Deactivated(s'.devices, token)
                         else s'.devices;
            Midway(s'.(devices := after), k, hold, t, ds, listing, i + 1, w, now)
  {
    PrunedOneMore(ds, listing, i, w);
    hide Run, Pruned, Deactivated;
  }

  lemma {:induction false} TryAllRuns(cfg: Config, s: State, k: Ticket, hold: Hold, t: Table, ds: Devices,
                                      listing: seq<DeviceKey>, i: nat, w: Weather, now: int)
      returns (s': State)
    requires Midway(s, k, hold, t, ds, listing, i, w, now)
    ensures Run(cfg, s, TryAll(k, listing[i..], w), s') && Midway(s', k, hold, t, ds, listing, |listing|, w, now)
    decreases |listing| - i
  {
    if i == |listing| {
      s' := s;
    } else {
      hide Run, Midway;
      var mid := TryOneRuns(cfg, s, k, hold, t, ds, listing, i, w, now);
      s' := TryAllRuns(cfg, mid, k, hold, t, ds, listing, i + 1, w, now);
      RunsJoin(cfg, s, TryOne(k, listing[i], w), mid, TryAll(k, listing[i + 1..], w), s');
      assert listing[i..][1..] == listing[i + 1..];
    }
  }

  /** Some result is transient exactly when some active device of the user is out of reach for now. */
  lemma ResultsAreTransient(s: State, k: Ticket, hold: Hold, t: Table, ds: Devices, listing: seq<DeviceKey>, w: Weather,
                            now: int)
    requires Midway(s, k, hold, t, ds, listing, |listing|, w, now)
    requires Enumerates(listing, ActiveFor(ds, hold.user)) && w.resolveOk
    ensures PassOver(s.holds[k].phase)
    ensures EndedTransient(s.holds[k].phase) <==> EndsTransient(ds, hold.user, w)
    ensures s.devices == Pruned(ds, listing, w)
  {
    assert listing[..|listing|] == listing;
    var results := s.holds[k].phase.results;
    if d :| d in ActiveFor(ds, hold.user) && w.push(d) == Transient {
      var j :| 0 <= j < |listing| && listing[j] == d;
      assert results[j] == Transient;
    }
    if Transient in results {
      var j :| 0 <= j < |results| && results[j] == Transient;
      assert listing[j] in ActiveFor(ds, hold.user);
    }
  }

  /** The last statement of a pass, or its loss. */
  lemma PassEnds(cfg: Config, s: State, k: Ticket, w: Weather) returns (s': State)
    requires k in s.holds && PassOver(s.holds[k].phase) && s.holds[k].at <= w.clock == s.now
    ensures Run(cfg, s, [if w.commitOk then Finalise(k, w.clock) else Drop(k)], s')
    ensures k !in s'.holds && s'.devices == s.devices
    ensures s'.rows == if w.commitOk
                       then Finalised(s.rows, cfg, k.id,
                                      VerdictOf(cfg, s.holds[k].attempts, EndedTransient(s.holds[k].phase)), w.clock)
                       else s.rows
  {
    var a := if w.commitOk then Finalise(k, w.clock) else Drop(k);
    s' := Apply(cfg, s, a);
    OneStep(cfg, s, a);
  }

  /** From the moment after the clock reading to the last statement. */
  lemma PassRuns(cfg: Config, s: State, k: Ticket, listing: seq<DeviceKey>, w: Weather) returns (end: State)
    requires k in s.holds && s.holds[k].phase == Claimed && s.holds[k].at <= w.clock == s.now
    requires Enumerates(listing, ActiveFor(s.devices, s.holds[k].user))
    ensures var steps := if w.resolveOk then [Resolve(k, listing)] + TryAll(k, listing, w) else [FailToResolve(k)];
            Run(cfg, s, steps + [if w.commitOk then Finalise(k, w.clock) else Drop(k)], end)
    ensures k !in end.holds
    ensures end.devices == if w.resolveOk then Pruned(s.devices, listing, w) else s.devices
    ensures end.rows == if w.commitOk
                        then Finalised(s.rows, cfg, k.id,
                                       VerdictOf(cfg, s.holds[k].attempts,
                                                 EndsTransient(s.devices, s.holds[k].user, w)), w.clock)
                        else s.rows
  {
    var hold := s.holds[k];
    var first := if w.resolveOk then Resolve(k, listing) else FailToResolve(k);
    var s1 := Apply(cfg, s, first);
    OneStep(cfg, s, first);
    var steps, mid := [first], s1;
    if w.resolveOk {
      assert Midway(s1, k, hold, s.rows, s.devices, listing, 0, w, w.clock) by { PrunedNone(s.devices, listing, w); }
      assert listing[0..] == listing;
      hide Run, Midway;
      mid := TryAllRuns(cfg, s1, k, hold, s.rows, s.devices, listing, 0, w, w.clock);
      steps := [first] + TryAll(k, listing, w);
      RunsJoin(cfg, s, [first], s1, TryAll(k, listing, w), mid);
      ResultsAreTransient(mid, k, hold, s.rows, s.devices, listing, w, w.clock);
      MidwayHold(mid, k, hold, s.rows, s.devices, listing, w, w.clock);
    }
    hide Apply, Enabled, Run, Midway, EndsTransient, EndedTransient, PassOver, Finalised, VerdictOf;
    end := PassEnds(cfg, mid, k, w);
    RunsJoin(cfg, s, steps, mid, [if w.commitOk then Finalise(k, w.clock) else Drop(k)], end);
  }

  lemma MidwayHold(s: State, k: Ticket, hold: Hold, t: Table, ds: Devices, listing: seq<DeviceKey>, w: Weather,
                   now: int)
    requires Midway(s, k, hold, t, ds, listing, |listing|, w, now)
    ensures k in s.holds && s.holds[k].attempts == hold.attempts && s.holds[k].at == hold.at
    ensures s.now == now && s.rows == t
  {}

  /** A claimed row whose pass nothing comes in between: whatever the provider and the database answer and in whatever
      order the devices are listed, it is a run of the protocol that ends with the table and devices of Dispatch. */
  lemma AloneIsDispatch(cfg: Config, s: State, k: Ticket, o: Row, listing: seq<DeviceKey>, w: Weather)
      returns (end: State)
    requires k in s.holds && s.holds[k].phase == Claimed && s.holds[k].at <= s.now <= w.clock
    requires o.attempts == s.holds[k].attempts && o.user == s.holds[k].user
    requires Enumerates(listing, ActiveFor(s.devices, o.user))
    ensures Run(cfg, s, Pass(k, listing, w), end) && k !in end.holds
    ensures end.rows == if w.commitOk
                        then Finalised(s.rows, cfg, k.id,
                                       VerdictOf(cfg, o.attempts, EndsTransient(s.devices, o.user, w)), w.clock)
                        else s.rows
    ensures OnlyDeactivated(s.devices, end.devices) && DeadTokensPruned(s.devices, end.devices, o.user, w)
  {
    var a := Advance(w.clock);
    var s1 := Apply(cfg, s, a);
    OneStep(cfg, s, a);
    end := PassRuns(cfg, s1, k, listing, w);
    var steps := if w.resolveOk then [Resolve(k, listing)] + TryAll(k, listing, w) else [FailToResolve(k)];
    var last := [if w.commitOk then Finalise(k, w.clock) else Drop(k)];
    RunsJoin(cfg, s, [a], s1, steps + last, end);
    assert Pass(k, listing, w) == [a] + (steps + last);
    PrunedMeans(s.devices, listing, o.user, w);
    DeactivatedNone(s.devices);
    hide Pruned;
  }
}
