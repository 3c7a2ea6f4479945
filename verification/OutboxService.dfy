/** The notification service's objects: the store whose statements update the tables, the consumer that
    records events before acknowledging them, and the dispatcher that works claimed rows. Failures of the
    database, the bus and the push provider are parameters. */
module OutboxService {
  import opened Common
  import opened Outbox

  class Store {
    var rows: Table
    var devices: Devices

    constructor ()
      ensures rows == map[] && devices == map[]
    {
      rows, devices := map[], map[];
    }

    /** None is a database error; otherwise whether a row was inserted. */
    method EnqueueOutbox(o: Row, freshId: Id, dbOk: bool) returns (inserted: Option<bool>)
      requires freshId !in rows
      modifies this`rows
      ensures !dbOk ==> inserted == None && rows == old(rows)
      ensures dbOk ==> inserted == Some(forall id :: id in old(rows) ==> old(rows)[id].key != o.key)
      ensures inserted == Some(false) ==> rows == old(rows)
      ensures inserted == Some(true) ==>
                rows == old(rows)[freshId := o.(status := Pending, attempts := 0, sentAt := None)]
      ensures dbOk ==> rows == Enqueued(old(rows), freshId, o)
    {
      if !dbOk { return None; }
      var isNew := !HasKey(rows, o.key);
      if isNew {
        rows := rows[freshId := o.(status := Pending, attempts := 0, sentAt := None)];
      }
      return Some(isNew);
    }

    /** One claiming statement: lease the earliest due rows that no other statement has locked. `ran` is whether it took
        effect and `replied` whether its rows could be read; without both the caller gets an error and no rows. */
    method ClaimPending(now: int, lease: int, limit: nat, locked: set<Id>, ran: bool, replied: bool)
      returns (err: bool, out: seq<(Id, Row)>, ghost ids: set<Id>)
      modifies this`rows
      ensures if ran then ClaimPick(old(rows), now, limit, locked, ids) else ids == {}
      ensures |ids| <= limit
      ensures forall id :: id in ids ==>
                id in old(rows) && id !in locked && old(rows)[id].status == Pending && old(rows)[id].next <= now
      // what is due, not locked and left out had to wait for earlier rows
      ensures ran ==>
                forall j :: j in old(rows) && j !in locked && old(rows)[j].status == Pending && old(rows)[j].next <= now
                            && j !in ids ==>
                              |ids| == limit && forall i :: i in ids ==> old(rows)[i].next <= old(rows)[j].next
      ensures rows == Leased(old(rows), ids, now + lease)
      ensures forall id :: id in ids ==> rows[id] == old(rows)[id].(next := now + lease)
      ensures rows.Keys == old(rows).Keys && forall id :: id in rows && id !in ids ==> rows[id] == old(rows)[id]
      ensures err <==> !ran || !replied
      ensures err ==> out == []
      ensures forall i :: 0 <= i < |out| ==> out[i].0 in ids && out[i].0 in rows && out[i].1 == rows[out[i].0]
      ensures forall i, j :: 0 <= i < j < |out| ==> out[i].0 != out[j].0
      ensures !err ==> |out| == |ids| && forall id :: id in ids ==> exists i :: 0 <= i < |out| && out[i].0 == id
    {
      err, out, ids := !ran || !replied, [], {};
      if !ran {
        assert rows == Leased(rows, {}, now + lease);
        return;
      }
      var picked := PickEarliest(rows, now, limit, locked);
      ids := picked;
      rows := Leased(rows, picked, now + lease);
      if !replied { return; }
      var left := picked;
      while left != {}
        invariant left <= picked
        invariant |out| + |left| == |picked|
        invariant forall i :: 0 <= i < |out| ==> out[i].0 in picked && out[i].0 !in left && out[i].1 == rows[out[i].0]
        invariant forall i, j :: 0 <= i < j < |out| ==> out[i].0 != out[j].0
        invariant forall id :: id in picked && id !in left ==> exists i :: 0 <= i < |out| && out[i].0 == id
        decreases left
      {
        var id :| id in left;
        ghost var before := out;
        out := out + [(id, rows[id])];
        left := left - {id};
        assert out[|before|].0 == id;
        assert forall i :: 0 <= i < |before| ==> out[i] == before[i];
      }
    }

    method MarkSent(id: Id, at: int, dbOk: bool) returns (err: bool)
      modifies this`rows
      ensures rows == if dbOk then WithSent(old(rows), id, at) else old(rows)
      ensures err <==> !dbOk || id !in old(rows)
    {
      if dbOk && id in rows {
        rows := rows[id := rows[id].(status := Sent, sentAt := Some(at))];
        return false;
      }
      return true;
    }

    method MarkFailed(id: Id, dbOk: bool) returns (err: bool)
      modifies this`rows
      ensures rows == if dbOk then WithFailed(old(rows), id) else old(rows)
      ensures err <==> !dbOk || id !in old(rows)
    {
      if dbOk && id in rows {
        rows := rows[id := rows[id].(status := Failed)];
        return false;
      }
      return true;
    }

    method Reschedule(id: Id, attempts: int, next: int, dbOk: bool) returns (err: bool)
      modifies this`rows
      ensures rows == if dbOk then Rescheduled(old(rows), id, attempts, next) else old(rows)
      ensures err <==> !dbOk || id !in old(rows)
    {
      if dbOk && id in rows {
        rows := rows[id := rows[id].(status := Pending, attempts := attempts, next := next)];
        return false;
      }
      return true;
    }

    /** None is a database error. */
    method UpsertDevice(k: DeviceKey, freshId: Id, user: string, version: string, now: int, dbOk: bool)
      returns (out: Option<Device>)
      modifies this`devices
      ensures !dbOk ==> out == None && devices == old(devices)
      ensures dbOk ==> devices == Upserted(old(devices), k, freshId, user, version, now)
      ensures dbOk && k in old(devices) ==>
                out == Some(Device(old(devices)[k].id, user, version, old(devices)[k].registeredAt, now, true))
      ensures dbOk && k !in old(devices) ==> out == Some(Device(freshId, user, version, now, now, true))
      ensures dbOk ==> devices == old(devices)[k := out.value] && k in ActiveFor(devices, user)
    {
      if !dbOk { return None; }
      var d := Device(freshId, user, version, now, now, true);
      if k in devices {
        d := devices[k].(user := user, version := version, lastSeenAt := now, active := true);
      }
      devices := devices[k := d];
      return Some(d);
    }

    method DeactivateDeviceByToken(token: string, dbOk: bool) returns (err: bool)
      modifies this`devices
      ensures devices == if dbOk then Deactivated(old(devices), token) else old(devices)
      ensures err <==> !dbOk
    {
      if dbOk { devices := Deactivated(devices, token); }
      return !dbOk;
    }

    /** None is a database error. */
    method ActiveDevicesForUser(user: string, dbOk: bool) returns (out: Option<seq<DeviceKey>>)
      ensures out.None? <==> !dbOk
      ensures out.Some? ==> Enumerates(out.value, ActiveFor(devices, user))
      ensures out.Some? ==>
                && (forall k :: k in out.value <==> k in devices && devices[k].active && devices[k].user == user)
                && forall i, j :: 0 <= i < j < |out.value| ==> out.value[i] != out.value[j]
    {
      if !dbOk { return None; }
      var listing: seq<DeviceKey> := [];
      var left := ActiveFor(devices, user);
      while left != {}
        invariant left <= ActiveFor(devices, user)
        invariant Enumerates(listing, ActiveFor(devices, user) - left)
        decreases left
      {
        var k :| k in left;
        ghost var before := listing;
        listing := listing + [k];
        left := left - {k};
        assert listing[|before|] == k;
        assert forall i :: 0 <= i < |before| ==> listing[i] == before[i];
      }
      return Some(listing);
    }
  }

  /** A duplicate-free listing of a set. */
  ghost predicate Enumerates<T>(s: seq<T>, elements: set<T>) {
    && (forall i :: 0 <= i < |s| ==> s[i] in elements)
    && (forall e :: e in elements ==> e in s)
    && (forall i, j :: 0 <= i < j < |s| ==> s[i] != s[j])
  }

  method Earliest(t: Table, ids: set<Id>) returns (m: Id)
    requires ids != {} && ids <= t.Keys
    ensures m in ids && forall i :: i in ids ==> t[m].next <= t[i].next
  {
    m :| m in ids;
    var left := ids - {m};
    while left != {}
      invariant m in ids && left <= ids
      invariant forall i :: i in ids && i !in left ==> t[m].next <= t[i].next
      decreases left
    {
      var c :| c in left;
      if t[c].next < t[m].next { m := c; }
      left := left - {c};
    }
  }

  /** ORDER BY next_attempt_at LIMIT limit, over the due rows that are not locked. */
  method PickEarliest(t: Table, now: int, limit: nat, locked: set<Id>) returns (ids: set<Id>)
    ensures ClaimPick(t, now, limit, locked, ids)
  {
    ids := {};
    var rest := DueUnlocked(t, now, locked);
    while |ids| < limit && rest != {}
      invariant ids + rest == DueUnlocked(t, now, locked) && ids !! rest
      invariant |ids| <= limit
      invariant forall i, j :: i in ids && j in rest ==> t[i].next <= t[j].next
      decreases rest
    {
      var m := Earliest(t, rest);
      ids, rest := ids + {m}, rest - {m};
    }
  }

  /** Which bus delivery may be acknowledged, and what it leaves in the table. */
  class Consumer {
    const store: Store

    constructor (store: Store)
      ensures this.store == store
    {
      this.store := store;
    }

    /** `decoded` is None for a body that is not the expected event. */
    method Handle(decoded: Option<Event>, now: int, freshId: Id, dbOk: bool) returns (err: bool)
      requires freshId !in store.rows
      modifies store`rows
      ensures !err <==> decoded.Some? && WellFormed(decoded.value) && dbOk
      ensures err ==> store.rows == old(store.rows)
      ensures !err ==> store.rows == Enqueued(old(store.rows), freshId, ToOutbox(decoded.value, now).value)
      ensures !err ==>
                var key := match decoded.value
                  case PollCompleted(poll, _, owner, _) => "poll_completed:" + poll + ":" + owner
                  case IdeasReady(request, user, _) => "ideas_ready:" + request + ":" + user;
                var row := match decoded.value
                  case PollCompleted(poll, request, owner, _) =>
                    Row(owner, PollCompletedKind, PollPayload(poll, request), key, Pending, 0, now, now, None)
                  case IdeasReady(request, user, count) =>
                    Row(user, IdeasReadyKind, IdeasPayload(request, count), key, Pending, 0, now, now, None);
                store.rows == if exists id :: id in old(store.rows) && old(store.rows)[id].key == key
                              then old(store.rows) else old(store.rows)[freshId := row]
    {
      if decoded.None? { return true; }
      var o := ToOutbox(decoded.value, now);
      if o.None? { return true; }
      var inserted := store.EnqueueOutbox(o.value, freshId, dbOk);
      return inserted.None?;
    }

    /** True is an Ack, false a Nak: an acknowledged event has its row in the table. */
    method Process(decoded: Option<Event>, now: int, freshId: Id, dbOk: bool) returns (ack: bool)
      requires freshId !in store.rows && UniqueKeys(store.rows)
      modifies store`rows
      ensures ack <==> decoded.Some? && WellFormed(decoded.value) && dbOk
      ensures ack ==> HasKey(store.rows, Key(decoded.value))
      ensures UniqueKeys(store.rows)
      ensures forall id :: id in old(store.rows) ==> id in store.rows && store.rows[id] == old(store.rows)[id]
      ensures store.rows.Keys <= old(store.rows).Keys + {freshId}
    {
      var err := Handle(decoded, now, freshId, dbOk);
      ack := !err;
      if ack && !HasKey(old(store.rows), Key(decoded.value)) {
        assert store.rows[freshId].key == Key(decoded.value);
      }
    }
  }

  /** Everything outside the service that decides one row's pass. */
  datatype Weather = Weather(resolveOk: bool, push: DeviceKey -> PushResult, deactivateOk: string -> bool,
                             commitOk: bool, clock: int)

  predicate EndsTransient(ds: Devices, user: string, w: Weather) {
    !w.resolveOk || exists k :: k in ActiveFor(ds, user) && w.push(k) == Transient
  }

  predicate ReportedInvalid(pushed: seq<DeviceKey>, token: string, w: Weather) {
    exists i :: 0 <= i < |pushed| && w.push(pushed[i]) == InvalidToken && pushed[i].token == token
  }

  /** The devices after `pushed` were tried: tokens reported invalid are inactive. */
  function Pruned(ds: Devices, pushed: seq<DeviceKey>, w: Weather): Devices {
    map k | k in ds ::
      if w.deactivateOk(k.token) && ReportedInvalid(pushed, k.token, w) then ds[k].(active := false) else ds[k]
  }

  class Dispatcher {
    const store: Store
    const cfg: Config

    constructor (store: Store, cfg: Config)
      requires cfg.Valid()
      ensures this.store == store && this.cfg == cfg
    {
      this.store, this.cfg := store, cfg;
    }

    /** One pass over a claimed row: fan out to the user's devices, then finalise. */
    method Dispatch(id: Id, o: Row, w: Weather) returns (err: bool)
      modifies store
      ensures store.rows ==
              if w.commitOk
              then Finalised(old(store.rows), cfg, id,
                             VerdictOf(cfg, o.attempts, EndsTransient(old(store.devices), o.user, w)), w.clock)
              else old(store.rows)
      ensures w.commitOk && id in old(store.rows) ==>
                var row := old(store.rows)[id];
                var reached := w.resolveOk && forall k ::
                  k in old(store.devices) && old(store.devices)[k].active && old(store.devices)[k].user == o.user ==>
                    w.push(k) != Transient;
                store.rows == old(store.rows)[id :=
                  if reached then row.(status := Sent, sentAt := Some(w.clock))
                  else if o.attempts + 1 >= cfg.maxAttempts then row.(status := Failed)
                  else row.(status := Pending, attempts := o.attempts + 1,
                            next := w.clock + Backoff(cfg.base, o.attempts + 1))]
      ensures OnlyDeactivated(old(store.devices), store.devices)
      ensures DeadTokensPruned(old(store.devices), store.devices, o.user, w)
      ensures err <==> !w.commitOk || id !in old(store.rows)
    {
      var resolved := store.ActiveDevicesForUser(o.user, w.resolveOk);
      if resolved.None? {
        err := Retry(id, o, w);
        return;
      }
      ghost var before := store.devices;
      var transient := FanOut(resolved.value, w);
      PrunedMeans(before, resolved.value, o.user, w);
      hide Pruned, Finalised, DeadTokensPruned, OnlyDeactivated;
      if transient {
        err := Retry(id, o, w);
      } else {
        err := store.MarkSent(id, w.clock, w.commitOk);
      }
    }

    /** The loop of dispatch over the devices. */
    method FanOut(devices: seq<DeviceKey>, w: Weather) returns (transient: bool)
      modifies store`devices
      ensures store.devices == Pruned(old(store.devices), devices, w)
      ensures transient <==> exists i :: 0 <= i < |devices| && w.push(devices[i]) == Transient
    {
      transient := false;
      PrunedNone(store.devices, devices, w);
      hide Pruned, Deactivated;
      for i := 0 to |devices|
        invariant store.devices == Pruned(old(store.devices), devices[..i], w)
        invariant transient <==> exists j :: 0 <= j < i && w.push(devices[j]) == Transient
      {
        var result := w.push(devices[i]);
        if result == InvalidToken {
          var _ := store.DeactivateDeviceByToken(devices[i].token, w.deactivateOk(devices[i].token));
        } else if result == Transient {
          transient := true;
        }
        PrunedOneMore(old(store.devices), devices, i, w);
      }
      assert devices[..|devices|] == devices;
    }

    method Retry(id: Id, o: Row, w: Weather) returns (err: bool)
      modifies store`rows
      ensures store.rows == if w.commitOk
                            then Finalised(old(store.rows), cfg, id, VerdictOf(cfg, o.attempts, true), w.clock)
                            else old(store.rows)
      ensures err <==> !w.commitOk || id !in old(store.rows)
    {
      var attempts := o.attempts + 1;
      if attempts >= cfg.maxAttempts {
        err := store.MarkFailed(id, w.commitOk);
      } else {
        err := store.Reschedule(id, attempts, w.clock + Backoff(cfg.base, attempts), w.commitOk);
      }
    }

    /** One sweep. Rows it did not claim are untouched; each claimed row ends as a pass over the devices it saw decides,
        and those are the devices from before the sweep, some of them deactivated by then. */
    method RunOnce(now: int, locked: set<Id>, ran: bool, replied: bool, weather: Id -> Weather)
      returns (err: bool, n: nat, ghost ids: set<Id>, ghost claimed: seq<(Id, Row)>, ghost seen: seq<Devices>)
      modifies store
      ensures err <==> !ran || !replied
      ensures n == |claimed| == |seen|
      ensures if ran then ClaimPick(old(store.rows), now, cfg.batch, locked, ids) else ids == {}
      // a claim whose reply is lost still leases its rows
      ensures err ==>
                && n == 0 && store.devices == old(store.devices)
                && store.rows == Leased(old(store.rows), ids, now + cfg.lease)
      ensures !err ==> Ids(claimed) == ids
      ensures store.rows.Keys == old(store.rows).Keys
      ensures !err ==>
                forall id :: id in store.rows && id !in ids ==> store.rows[id] == old(store.rows)[id]
      ensures forall i :: 0 <= i < n ==>
                && OnlyDeactivated(old(store.devices), seen[i])
                && claimed[i].0 in old(store.rows)
                && claimed[i].1 == old(store.rows)[claimed[i].0].(next := now + cfg.lease)
                && store.rows[claimed[i].0] == AfterPass(cfg, claimed[i].1, seen[i], weather(claimed[i].0))
    {
      var rows;
      err, rows, ids := store.ClaimPending(now, cfg.lease, cfg.batch, locked, ran, replied);
      if err {
        n, claimed, seen := 0, [], [];
        return;
      }
      assert Ids(rows) == ids;
      hide AfterPass, ClaimPick, OnlyDeactivated;
      seen := WorkThrough(rows, weather);
      n, claimed := |rows|, rows;
    }

    /** The loop of RunOnce over the claimed rows. */
    method WorkThrough(claimed: seq<(Id, Row)>, weather: Id -> Weather) returns (ghost seen: seq<Devices>)
      requires forall i :: 0 <= i < |claimed| ==>
                 claimed[i].0 in store.rows && claimed[i].1 == store.rows[claimed[i].0]
      requires forall i, j :: 0 <= i < j < |claimed| ==> claimed[i].0 != claimed[j].0
      modifies store
      ensures |seen| == |claimed| && store.rows.Keys == old(store.rows).Keys
      ensures forall id :: id in store.rows && id !in Ids(claimed) ==> store.rows[id] == old(store.rows)[id]
      ensures forall i :: 0 <= i < |claimed| ==>
                && OnlyDeactivated(old(store.devices), seen[i])
                && store.rows[claimed[i].0] == AfterPass(cfg, claimed[i].1, seen[i], weather(claimed[i].0))
    {
      hide Finalised, VerdictOf, EndsTransient, AfterPass, OnlyDeactivated, DeadTokensPruned;
      seen := [];
      DeactivatedNone(store.devices);
      for i := 0 to |claimed|
        invariant |seen| == i && store.rows.Keys == old(store.rows).Keys
        invariant OnlyDeactivated(old(store.devices), store.devices)
        invariant forall id :: id in store.rows && (forall j :: 0 <= j < i ==> claimed[j].0 != id) ==>
                    store.rows[id] == old(store.rows)[id]
        invariant forall j :: 0 <= j < i ==>
          && OnlyDeactivated(old(store.devices), seen[j])
          && store.rows[claimed[j].0] == AfterPass(cfg, claimed[j].1, seen[j], weather(claimed[j].0))
      {
        var id, o := claimed[i].0, claimed[i].1;
        ghost var before, ds := store.rows, store.devices;
        var _ := Dispatch(id, o, weather(id));
        seen := seen + [ds];
        FinalisingOne(before, cfg, id, ds, weather(id));
        DeactivatedTwice(old(store.devices), ds, store.devices);
      }
    }
  }

  ghost function Ids(claimed: seq<(Id, Row)>): set<Id> {
    set i | 0 <= i < |claimed| :: claimed[i].0
  }

  /** Only devices that share a token reported invalid were deactivated, and all of those whose statement got through.
      */
  ghost predicate DeadTokensPruned(ds: Devices, ds': Devices, user: string, w: Weather)
    requires ds'.Keys == ds.Keys
  {
    && (forall k :: k in ds ==>
          || ds'[k] == ds[k]
          || (w.deactivateOk(k.token)
              && exists d :: d in ActiveFor(ds, user) && w.push(d) == InvalidToken && d.token == k.token))
    && (w.resolveOk ==>
          forall d, k ::
            d in ActiveFor(ds, user) && w.push(d) == InvalidToken && w.deactivateOk(d.token)
            && k in ds && k.token == d.token ==>
              !ds'[k].active)
  }

  /** The same devices, some of them now inactive. */
  ghost predicate OnlyDeactivated(ds: Devices, ds': Devices) {
    ds'.Keys == ds.Keys && forall k :: k in ds ==> ds'[k] == ds[k] || ds'[k] == ds[k].(active := false)
  }

  lemma DeactivatedNone(ds: Devices)
    ensures OnlyDeactivated(ds, ds)
  {}

  lemma DeactivatedTwice(a: Devices, b: Devices, c: Devices)
    requires OnlyDeactivated(a, b) && OnlyDeactivated(b, c)
    ensures OnlyDeactivated(a, c)
  {}

  /** A claimed row after its pass. */
  ghost function AfterPass(cfg: Config, claimed: Row, ds: Devices, w: Weather): Row {
    if !w.commitOk then claimed
    else
      match VerdictOf(cfg, claimed.attempts, EndsTransient(ds, claimed.user, w))
      case MarkSent => claimed.(status := Sent, sentAt := Some(w.clock))
      case MarkFailed => claimed.(status := Failed)
      case Retry(a) => claimed.(status := Pending, attempts := a, next := w.clock + Backoff(cfg.base, a))
  }

  lemma FinalisingOne(t: Table, cfg: Config, id: Id, ds: Devices, w: Weather)
    requires id in t
    ensures var v := VerdictOf(cfg, t[id].attempts, EndsTransient(ds, t[id].user, w));
            var t' := if w.commitOk then Finalised(t, cfg, id, v, w.clock) else t;
            && t'.Keys == t.Keys
            && t'[id] == AfterPass(cfg, t[id], ds, w)
            && forall i :: i in t && i != id ==> t'[i] == t[i]
  {}

  lemma PrunedMeans(ds: Devices, devices: seq<DeviceKey>, user: string, w: Weather)
    requires Enumerates(devices, ActiveFor(ds, user))
    ensures OnlyDeactivated(ds, Pruned(ds, devices, w)) && DeadTokensPruned(ds, Pruned(ds, devices, w), user, w)
  {
  }

  lemma PrunedNone(ds: Devices, devices: seq<DeviceKey>, w: Weather)
    ensures Pruned(ds, devices[..0], w) == ds
  {
  }

  lemma PrunedOneMore(ds: Devices, devices: seq<DeviceKey>, i: nat, w: Weather)
    requires i < |devices|
    ensures Pruned(ds, devices[..i + 1], w) ==
            if w.push(devices[i]) == InvalidToken && w.deactivateOk(devices[i].token)
            then Deactivated(Pruned(ds, devices[..i], w), devices[i].token)
            else Pruned(ds, devices[..i], w)
  {
    forall k | k in ds
      ensures ReportedInvalid(devices[..i + 1], k.token, w) <==>
              || ReportedInvalid(devices[..i], k.token, w)
              || (w.push(devices[i]) == InvalidToken && devices[i].token == k.token)
    {
      InvalidOneMore(devices, i, k.token, w);
    }
    hide ReportedInvalid;
  }

  lemma InvalidOneMore(devices: seq<DeviceKey>, i: nat, token: string, w: Weather)
    requires i < |devices|
    ensures ReportedInvalid(devices[..i + 1], token, w) <==>
            || ReportedInvalid(devices[..i], token, w)
            || (w.push(devices[i]) == InvalidToken && devices[i].token == token)
  {
    var shorter, longer := devices[..i], devices[..i + 1];
    assert longer[i] == devices[i];
    assert forall j :: 0 <= j < i ==> longer[j] == shorter[j];
  }
}
