/** All callers of one idempotency key get one request id, as long as nothing fails and no slot expires before its
    request is stored; and each such expiry can indeed give two callers different ids. */
module GenerationAnswers {
  import opened Common
  import opened Generation
  import opened GenerationRuns

  type Index = map<string, string>

  /** No fault in RequestGeneration, and no slot expires between its claim and the storing of its request. */
  ghost predicate Calm(w: World, a: Action) {
    match a
    case StepCall(_, o) => o.ok
    case CrashCall(_) => false
    case SlotExpires(key) => key in w.db.byKey || key !in w.db.slots
    case _ => true
  }

  ghost predicate CalmRun(w: World, acts: seq<Action>, end: World)
    decreases |acts|
  {
    if acts == [] then end == w
    else Enabled(w, acts[0]) && Calm(w, acts[0]) && CalmRun(Apply(w, acts[0]), acts[1..], end)
  }

  /** The one id a key stands for: its stored request's, or else the one its slot holds. */
  function Canon(byKey: Index, slots: Index, key: string): Option<string> {
    if key in byKey then Some(byKey[key]) else if key in slots then Some(slots[key]) else None
  }

  ghost predicate SlotsOk(slots: Index, keyOf: Index) {
    forall key :: key in slots ==> slots[key] in keyOf && keyOf[slots[key]] == key
  }

  ghost predicate Creates(call: Call, key: string, id: string) {
    call.phase == Create && call.r.key == key && call.r.id == id
  }

  /** A slot without a stored request has a call about to store it. */
  ghost predicate HeldOk(byKey: Index, slots: Index, calls: map<nat, Call>) {
    forall key :: key in slots && key !in byKey ==> exists c :: c in calls && Creates(calls[c], key, slots[key])
  }

  ghost predicate WillEnqueue(call: Call, id: string) {
    (call.phase == TellQueued || call.phase == Enqueue) && call.r.id == id
  }

  /** A stored request is enqueued, or has a call about to enqueue it. */
  ghost predicate EnqueuedOk(byKey: Index, q: Requesting) {
    forall key :: key in byKey ==>
      byKey[key] in q.jobs || exists c :: c in q.calls && WillEnqueue(q.calls[c], byKey[key])
  }

  ghost predicate Agrees(byKey: Index, slots: Index, keyOf: Index, call: Call) {
    var key := call.r.key;
    && call.r.id in keyOf && keyOf[call.r.id] == key
    && match call.phase
       case Claim => true
       case Existing(id) => id in keyOf && keyOf[id] == key && (key in byKey || (key in slots && slots[key] == id))
       case ExistingByKey(id) => id in keyOf && keyOf[id] == key && (key in byKey || (key in slots && slots[key] == id))
       case Create => key in byKey || (key in slots && slots[key] == call.r.id)
       case Duplicate => key in byKey
       case TellQueued => key in byKey && byKey[key] == call.r.id
       case Enqueue => key in byKey && byKey[key] == call.r.id
  }

  ghost predicate CallsAgree(byKey: Index, slots: Index, q: Requesting) {
    forall c :: c in q.calls ==> Agrees(byKey, slots, q.keyOf, q.calls[c])
  }

  ghost predicate AnswersAgree(byKey: Index, slots: Index, answers: seq<Answered>) {
    forall i :: 0 <= i < |answers| ==> Canon(byKey, slots, answers[i].key) == Some(answers[i].id)
  }

  ghost predicate AgreeInv(byKey: Index, slots: Index, q: Requesting) {
    && SlotsOk(slots, q.keyOf)
    && HeldOk(byKey, slots, q.calls)
    && EnqueuedOk(byKey, q)
    && CallsAgree(byKey, slots, q)
    && AnswersAgree(byKey, slots, q.answers)
  }

  lemma StepClaimTaken(db: Db, q: Requesting, c: nat, o: Outcome)
    requires o.ok && c in q.calls && q.calls[c].phase == Claim && q.calls[c].r.key in db.slots
    requires AgreeInv(db.byKey, db.slots, q)
    ensures AgreeInv(db.byKey, db.slots, CallStepped(db, q, c, o))
  {
    var q' := CallStepped(db, q, c, o);
    assert Agrees(db.byKey, db.slots, q.keyOf, q.calls[c]);
    forall d | d in q'.calls
      ensures Agrees(db.byKey, db.slots, q.keyOf, q'.calls[d])
    {
      assert Agrees(db.byKey, db.slots, q.keyOf, q.calls[d]);
    }
    OthersHold(db.byKey, db.slots, q, q', c);
    OthersWillEnqueue(db.byKey, q, q', c);
  }

  lemma StepClaimNew(db: Db, q: Requesting, c: nat, o: Outcome)
    requires o.ok && c in q.calls && q.calls[c].phase == Claim && q.calls[c].r.key !in db.slots
    requires AgreeInv(db.byKey, db.slots, q)
    ensures AgreeInv(db.byKey, CallDb(db, q.calls[c], o).slots, CallStepped(db, q, c, o))
  {
    var q', slots' := CallStepped(db, q, c, o), db.slots[q.calls[c].r.key := q.calls[c].r.id];
    NewSlotCalls(db.byKey, db.slots, q, c);
    NewSlotHeld(db.byKey, db.slots, q, q', c);
    OthersWillEnqueue(db.byKey, q, q', c);
    hide HeldOk, EnqueuedOk, CallsAgree;
  }

  lemma NewSlotCalls(byKey: Index, slots: Index, q: Requesting, c: nat)
    requires CallsAgree(byKey, slots, q) && c in q.calls && q.calls[c].phase == Claim
    requires q.calls[c].r.key !in slots && SlotsOk(slots, q.keyOf)
    ensures var slots' := slots[q.calls[c].r.key := q.calls[c].r.id];
      CallsAgree(byKey, slots', Moved(q, c, Goto(Create))) && SlotsOk(slots', q.keyOf)
  {
    var q', slots' := Moved(q, c, Goto(Create)), slots[q.calls[c].r.key := q.calls[c].r.id];
    assert Agrees(byKey, slots, q.keyOf, q.calls[c]);
    forall d | d in q'.calls
      ensures Agrees(byKey, slots', q.keyOf, q'.calls[d])
    {
      assert Agrees(byKey, slots, q.keyOf, q.calls[d]);
    }
  }

  lemma NewSlotHeld(byKey: Index, slots: Index, q: Requesting, q': Requesting, c: nat)
    requires HeldOk(byKey, slots, q.calls) && c in q.calls && q.calls[c].phase == Claim && c in q'.calls
    requires q'.calls[c] == q.calls[c].(phase := Create)
    requires forall d :: d in q.calls && d != c ==> d in q'.calls && q'.calls[d] == q.calls[d]
    ensures HeldOk(byKey, slots[q.calls[c].r.key := q.calls[c].r.id], q'.calls)
  {
    var slots' := slots[q.calls[c].r.key := q.calls[c].r.id];
    forall key | key in slots' && key !in byKey
      ensures exists d :: d in q'.calls && Creates(q'.calls[d], key, slots'[key])
    {
      if key == q.calls[c].r.key {
        assert Creates(q'.calls[c], key, slots'[key]);
      } else {
        var d :| d in q.calls && Creates(q.calls[d], key, slots[key]);
        assert Creates(q'.calls[d], key, slots'[key]);
      }
    }
  }

  lemma OthersWillEnqueue(byKey: Index, q: Requesting, q': Requesting, c: nat)
    requires EnqueuedOk(byKey, q) && c in q.calls && q'.jobs == q.jobs
    requires !WillEnqueue(q.calls[c], q.calls[c].r.id)
    requires forall d :: d in q.calls && d != c ==> d in q'.calls && q'.calls[d] == q.calls[d]
    ensures EnqueuedOk(byKey, q')
  {
    forall key | key in byKey
      ensures byKey[key] in q'.jobs || exists d :: d in q'.calls && WillEnqueue(q'.calls[d], byKey[key])
    {
      if byKey[key] !in q.jobs {
        var d :| d in q.calls && WillEnqueue(q.calls[d], byKey[key]);
        assert WillEnqueue(q'.calls[d], byKey[key]);
      }
    }
  }

  lemma OthersHold(byKey: Index, slots: Index, q: Requesting, q': Requesting, c: nat)
    requires HeldOk(byKey, slots, q.calls) && c in q.calls && q.calls[c].phase != Create
    requires forall d :: d in q.calls && d != c ==> d in q'.calls && q'.calls[d] == q.calls[d]
    ensures HeldOk(byKey, slots, q'.calls)
  {
    forall key | key in slots && key !in byKey
      ensures exists d :: d in q'.calls && Creates(q'.calls[d], key, slots[key])
    {
      var d :| d in q.calls && Creates(q.calls[d], key, slots[key]);
      assert Creates(q'.calls[d], key, slots[key]);
    }
  }

  lemma StepExisting(db: Db, q: Requesting, c: nat, o: Outcome)
    requires o.ok && c in q.calls && (q.calls[c].phase.Existing? || q.calls[c].phase.ExistingByKey?)
    requires AgreeInv(db.byKey, db.slots, q) && KeysOk(db.requests, db.byKey, q.keyOf)
    ensures AgreeInv(db.byKey, db.slots, CallStepped(db, q, c, o))
  {
    var q' := CallStepped(db, q, c, o);
    assert Agrees(db.byKey, db.slots, q.keyOf, q.calls[c]);
    forall d | d in q'.calls
      ensures Agrees(db.byKey, db.slots, q.keyOf, q'.calls[d])
    {
      assert Agrees(db.byKey, db.slots, q.keyOf, q.calls[d]);
    }
    OthersWillEnqueue(db.byKey, q, q', c);
    OthersHold(db.byKey, db.slots, q, q', c);
  }

  lemma StepDuplicate(db: Db, q: Requesting, c: nat, o: Outcome)
    requires o.ok && c in q.calls && q.calls[c].phase == Duplicate && AgreeInv(db.byKey, db.slots, q)
    ensures AgreeInv(db.byKey, db.slots, CallStepped(db, q, c, o))
  {
    var q' := CallStepped(db, q, c, o);
    assert Agrees(db.byKey, db.slots, q.keyOf, q.calls[c]);
    assert forall d :: d in q'.calls ==> Agrees(db.byKey, db.slots, q.keyOf, q.calls[d]);
    OthersWillEnqueue(db.byKey, q, q', c);
    OthersHold(db.byKey, db.slots, q, q', c);
  }

  lemma StepCreateDuplicate(db: Db, q: Requesting, c: nat, o: Outcome)
    requires o.ok && c in q.calls && q.calls[c].phase == Create && q.calls[c].r.key in db.byKey
    requires AgreeInv(db.byKey, db.slots, q)
    ensures AgreeInv(db.byKey, db.slots, CallStepped(db, q, c, o))
  {
    var q' := CallStepped(db, q, c, o);
    forall d | d in q'.calls
      ensures Agrees(db.byKey, db.slots, q.keyOf, q'.calls[d])
    {
      assert Agrees(db.byKey, db.slots, q.keyOf, q.calls[d]);
    }
    forall key | key in db.slots && key !in db.byKey
      ensures exists d :: d in q'.calls && Creates(q'.calls[d], key, db.slots[key])
    {
      var d :| d in q.calls && Creates(q.calls[d], key, db.slots[key]);
      assert Creates(q'.calls[d], key, db.slots[key]);
    }
    OthersWillEnqueue(db.byKey, q, q', c);
  }

  lemma StepCreateNew(db: Db, q: Requesting, c: nat, o: Outcome)
    requires o.ok && c in q.calls && q.calls[c].phase == Create && q.calls[c].r.key !in db.byKey
    requires AgreeInv(db.byKey, db.slots, q)
    ensures AgreeInv(CallDb(db, q.calls[c], o).byKey, db.slots, CallStepped(db, q, c, o))
  {
    var q', byKey' := CallStepped(db, q, c, o), CallDb(db, q.calls[c], o).byKey;
    assert Agrees(db.byKey, db.slots, q.keyOf, q.calls[c]);
    forall d | d in q'.calls
      ensures Agrees(byKey', db.slots, q.keyOf, q'.calls[d])
    {
      assert Agrees(db.byKey, db.slots, q.keyOf, q.calls[d]);
    }
    forall key | key in db.slots && key !in byKey'
      ensures exists d :: d in q'.calls && Creates(q'.calls[d], key, db.slots[key])
    {
      var d :| d in q.calls && Creates(q.calls[d], key, db.slots[key]);
      assert Creates(q'.calls[d], key, db.slots[key]);
    }
    forall key | key in byKey'
      ensures byKey'[key] in q'.jobs || exists d :: d in q'.calls && WillEnqueue(q'.calls[d], byKey'[key])
    {
      if key !in db.byKey {
        assert WillEnqueue(q'.calls[c], byKey'[key]);
      } else if byKey'[key] !in q.jobs {
        var d :| d in q.calls && WillEnqueue(q.calls[d], byKey'[key]);
        assert WillEnqueue(q'.calls[d], byKey'[key]);
      }
    }
  }

  lemma StepQueue(db: Db, q: Requesting, c: nat, o: Outcome)
    requires o.ok && c in q.calls && (q.calls[c].phase == TellQueued || q.calls[c].phase == Enqueue)
    requires AgreeInv(db.byKey, db.slots, q)
    ensures AgreeInv(db.byKey, db.slots, CallStepped(db, q, c, o))
  {
    var q' := CallStepped(db, q, c, o);
    assert Agrees(db.byKey, db.slots, q.keyOf, q.calls[c]);
    forall d | d in q'.calls
      ensures Agrees(db.byKey, db.slots, q.keyOf, q'.calls[d])
    {
      assert Agrees(db.byKey, db.slots, q.keyOf, q.calls[d]);
    }
    OthersHold(db.byKey, db.slots, q, q', c);
    forall key | key in db.byKey
      ensures db.byKey[key] in q'.jobs || exists d :: d in q'.calls && WillEnqueue(q'.calls[d], db.byKey[key])
    {
      if db.byKey[key] !in q.jobs {
        var d :| d in q.calls && WillEnqueue(q.calls[d], db.byKey[key]);
        if d == c && q.calls[c].phase == Enqueue {
          assert q'.jobs[|q.jobs|] == db.byKey[key];
        } else {
          assert WillEnqueue(q'.calls[d], db.byKey[key]);
        }
      }
    }
  }

  lemma AgreeCallStep(db: Db, q: Requesting, c: nat, o: Outcome)
    requires o.ok && c in q.calls && AgreeInv(db.byKey, db.slots, q) && KeysOk(db.requests, db.byKey, q.keyOf)
    ensures var db' := CallDb(db, q.calls[c], o); AgreeInv(db'.byKey, db'.slots, CallStepped(db, q, c, o))
  {
    hide AgreeInv, KeysOk, CallStepped;
    match q.calls[c].phase
    case Claim =>
      if q.calls[c].r.key in db.slots { StepClaimTaken(db, q, c, o); } else { StepClaimNew(db, q, c, o); }
    case Existing(_) => StepExisting(db, q, c, o);
    case ExistingByKey(_) => StepExisting(db, q, c, o);
    case Create =>
      if q.calls[c].r.key in db.byKey { StepCreateDuplicate(db, q, c, o); } else { StepCreateNew(db, q, c, o); }
    case Duplicate => StepDuplicate(db, q, c, o);
    case TellQueued => StepQueue(db, q, c, o);
    case Enqueue => StepQueue(db, q, c, o);
  }

  lemma AgreeBegin(w: World, a: Action)
    requires a.BeginCall? && Enabled(w, a) && AgreeInv(w.db.byKey, w.db.slots, w.asking)
    ensures AgreeInv(w.db.byKey, w.db.slots, Apply(w, a).asking)
  {
    var q, q' := w.asking, Apply(w, a).asking;
    forall d | d in q'.calls
      ensures Agrees(w.db.byKey, w.db.slots, q'.keyOf, q'.calls[d])
    {
      if d in q.calls { assert Agrees(w.db.byKey, w.db.slots, q.keyOf, q.calls[d]); }
    }
    forall key | key in w.db.slots && key !in w.db.byKey
      ensures exists d :: d in q'.calls && Creates(q'.calls[d], key, w.db.slots[key])
    {
      var d :| d in q.calls && Creates(q.calls[d], key, w.db.slots[key]);
      assert Creates(q'.calls[d], key, w.db.slots[key]);
    }
    forall key | key in w.db.byKey
      ensures w.db.byKey[key] in q'.jobs || exists d :: d in q'.calls && WillEnqueue(q'.calls[d], w.db.byKey[key])
    {
      if w.db.byKey[key] !in q.jobs {
        var d :| d in q.calls && WillEnqueue(q.calls[d], w.db.byKey[key]);
        assert WillEnqueue(q'.calls[d], w.db.byKey[key]);
      }
    }
  }

  lemma AgreeExpires(db: Db, q: Requesting, key: string)
    requires AgreeInv(db.byKey, db.slots, q) && (key in db.byKey || key !in db.slots)
    ensures AgreeInv(db.byKey, db.slots - {key}, q)
  {
    forall c | c in q.calls
      ensures Agrees(db.byKey, db.slots - {key}, q.keyOf, q.calls[c])
    {
      assert Agrees(db.byKey, db.slots, q.keyOf, q.calls[c]);
    }
  }

  lemma AgreeStep(w: World, a: Action)
    requires Enabled(w, a) && Calm(w, a)
    requires AgreeInv(w.db.byKey, w.db.slots, w.asking) && IdemInv(w.db, w.asking)
    ensures var w' := Apply(w, a); AgreeInv(w'.db.byKey, w'.db.slots, w'.asking)
  {
    hide AgreeInv, CallDb, CallStepped, RunDb, RunStepped, RefineDb, RefineStepped;
    if OfOthers(a) {
      hide Apply;
      OthersKeepKeys(w, a);
    } else if a.StepCall? {
      AgreeCallStep(w.db, w.asking, a.c, a.o);
    } else if a.BeginCall? {
      AgreeBegin(w, a);
    } else if a.SlotExpires? {
      AgreeExpires(w.db, w.asking, a.key);
    }
  }

  lemma {:induction false} AgreeRun(w: World, acts: seq<Action>, end: World)
    requires CalmRun(w, acts, end) && AgreeInv(w.db.byKey, w.db.slots, w.asking) && IdemInv(w.db, w.asking)
    ensures AgreeInv(end.db.byKey, end.db.slots, end.asking) && IdemInv(end.db, end.asking)
    decreases |acts|
  {
    hide Apply, Enabled, Calm, IdemInv, AgreeInv;
    if acts != [] {
      IdemStep(w, acts[0]);
      AgreeStep(w, acts[0]);
      AgreeRun(Apply(w, acts[0]), acts[1..], end);
    }
  }

  /** In every calm run all answers for a key carry the same id; and once no call is in flight, that id is the key's
      one stored request, with its one job enqueued. */
  lemma CallersOfAKeyAgree(acts: seq<Action>, w: World)
    requires CalmRun(START, acts, w)
    ensures forall a, b :: a in w.asking.answers && b in w.asking.answers && a.key == b.key ==> a.id == b.id
    ensures w.asking.calls == map[] ==>
              forall a :: a in w.asking.answers ==>
                && a.id in w.db.requests && w.db.requests[a.id].key == a.key
                && multiset(w.asking.jobs)[a.id] == 1
  {
    AgreeRun(START, acts, w);
    AnswersOfAKey(w);
    if w.asking.calls == map[] {
      forall a | a in w.asking.answers
        ensures a.id in w.db.requests && w.db.requests[a.id].key == a.key && multiset(w.asking.jobs)[a.id] == 1
      {
        CanonOf(w, a);
        SettledKey(w, a.key);
        OnceInDistinct(w.asking.jobs, a.id);
      }
    }
  }

  lemma AnswersOfAKey(w: World)
    requires AgreeInv(w.db.byKey, w.db.slots, w.asking)
    ensures forall a, b :: a in w.asking.answers && b in w.asking.answers && a.key == b.key ==> a.id == b.id
  {
    forall a, b | a in w.asking.answers && b in w.asking.answers && a.key == b.key
      ensures a.id == b.id
    {
      CanonOf(w, a);
      CanonOf(w, b);
    }
  }

  lemma CanonOf(w: World, a: Answered)
    requires AgreeInv(w.db.byKey, w.db.slots, w.asking) && a in w.asking.answers
    ensures Canon(w.db.byKey, w.db.slots, a.key) == Some(a.id)
  {
    var i :| 0 <= i < |w.asking.answers| && w.asking.answers[i] == a;
  }

  lemma SettledKey(w: World, key: string)
    requires AgreeInv(w.db.byKey, w.db.slots, w.asking) && IdemInv(w.db, w.asking) && w.asking.calls == map[]
    requires Canon(w.db.byKey, w.db.slots, key).Some?
    ensures key in w.db.byKey && w.db.byKey[key] in w.asking.jobs
    ensures w.db.byKey[key] in w.db.requests && w.db.requests[w.db.byKey[key]].key == key
  {
  }

  lemma {:induction false} OnceInDistinct(s: seq<string>, x: string)
    requires forall i, j :: 0 <= i < j < |s| ==> s[i] != s[j]
    ensures multiset(s)[x] == if x in s then 1 else 0
  {
    if s != [] {
      var n := |s| - 1;
      assert s == s[..n] + [s[n]];
      OnceInDistinct(s[..n], x);
    }
  }

  // ---- A call left alone ----

  const FINE := Outcome(true, true, [], [])

  /** Up to n faultless steps of one call with nothing in between. */
  function Alone(db: Db, q: Requesting, c: nat, n: nat): (Db, Requesting)
    decreases n
  {
    if n == 0 || c !in q.calls then (db, q)
    else Alone(CallDb(db, q.calls[c], FINE), CallStepped(db, q, c, FINE), c, n - 1)
  }

  lemma OneStepAlone(db: Db, q: Requesting, c: nat, n: nat)
    requires c in q.calls && n > 0
    ensures Alone(db, q, c, n) == Alone(CallDb(db, q.calls[c], FINE), CallStepped(db, q, c, FINE), c, n - 1)
  {}

  lemma EndedAlone(db: Db, q: Requesting, c: nat, n: nat)
    requires c !in q.calls
    ensures Alone(db, q, c, n) == (db, q)
  {}

  /** The steps are those of the sequential method: left alone, a call ends within four of them, and table, job and
      answer are what Server.RequestGeneration promises. */
  lemma AloneIsRequestGeneration(db: Db, q: Requesting, c: nat)
    requires c in q.calls && q.calls[c].phase == Claim
    ensures var r, (db', q') := q.calls[c].r, Alone(db, q, c, 4);
      && q'.calls == q.calls - {c}
      && (r.key in db.slots ==>
            && db' == db && q'.jobs == q.jobs
            && q'.answers == q.answers + [Answered(r.key, if db.slots[r.key] in db.requests then db.slots[r.key]
                                                          else if r.key in db.byKey then db.byKey[r.key]
                                                          else db.slots[r.key])])
      && (r.key !in db.slots && r.key in db.byKey ==>
            && db' == SlotSet(db, r.key, r.id) && q'.jobs == q.jobs
            && q'.answers == q.answers + [Answered(r.key, db.byKey[r.key])])
      && (r.key !in db.slots && r.key !in db.byKey ==>
            && db' == Created(SlotSet(db, r.key, r.id), r).(status := db.status[r.id := StatusInfo(Queued, 0)])
            && q'.jobs == q.jobs + [r.id]
            && q'.answers == q.answers + [Answered(r.key, r.id)])
  {
    var r := q.calls[c].r;
    var db1, q1 := CallDb(db, q.calls[c], FINE), CallStepped(db, q, c, FINE);
    OneStepAlone(db, q, c, 4);
    hide Alone;
    if r.key in db.slots {
      assert q1.calls[c].phase == Existing(db.slots[r.key]);
      AloneExisting(db, q1, c);
    } else {
      assert q1.calls[c].phase == Create;
      AloneCreate(db1, q1, c);
    }
  }

  lemma AloneExisting(db: Db, q: Requesting, c: nat)
    requires c in q.calls && q.calls[c].phase.Existing?
    ensures var r, id := q.calls[c].r, q.calls[c].phase.id;
      Alone(db, q, c, 3) == (db, q.(calls := q.calls - {c}, answers := q.answers + [Answered(r.key,
        if id in db.requests then id else if r.key in db.byKey then db.byKey[r.key] else id)]))
  {
    var q1 := CallStepped(db, q, c, FINE);
    OneStepAlone(db, q, c, 3);
    hide Alone;
    if c in q1.calls {
      OneStepAlone(db, q1, c, 2);
      EndedAlone(db, CallStepped(db, q1, c, FINE), c, 1);
      assert q1.calls - {c} == q.calls - {c};
    } else {
      EndedAlone(db, q1, c, 2);
    }
  }

  lemma AloneCreate(db: Db, q: Requesting, c: nat)
    requires c in q.calls && q.calls[c].phase == Create
    ensures var r := q.calls[c].r;
      Alone(db, q, c, 3) ==
      if r.key in db.byKey then
        (db, q.(calls := q.calls - {c}, answers := q.answers + [Answered(r.key, db.byKey[r.key])]))
      else
        (Created(db, r).(status := db.status[r.id := StatusInfo(Queued, 0)]),
         Requesting(q.calls - {c}, q.keyOf, q.jobs + [r.id], q.answers + [Answered(r.key, r.id)]))
  {
    var r := q.calls[c].r;
    var db1, q1 := CallDb(db, q.calls[c], FINE), CallStepped(db, q, c, FINE);
    var db2, q2 := CallDb(db1, q1.calls[c], FINE), CallStepped(db1, q1, c, FINE);
    OneStepAlone(db, q, c, 3);
    OneStepAlone(db1, q1, c, 2);
    hide Alone;
    if r.key in db.byKey {
      EndedAlone(db2, q2, c, 1);
      assert q2.calls == q.calls - {c};
    } else {
      OneStepAlone(db2, q2, c, 1);
      var q3 := CallStepped(db2, q2, c, FINE);
      EndedAlone(CallDb(db2, q2.calls[c], FINE), q3, c, 0);
      assert q3.calls == q.calls - {c};
    }
  }

  // ---- Which expiry splits the answers of a key ----

  lemma {:induction false} OneMore(w: World, acts: seq<Action>, mid: World, a: Action)
    requires Run(w, acts, mid) && Enabled(mid, a)
    ensures Run(w, acts + [a], Apply(mid, a))
    decreases |acts|
  {
    hide Apply, Enabled;
    if acts == [] {
      assert [a][1..] == [];
    } else {
      OneMore(Apply(w, acts[0]), acts[1..], mid, a);
      assert (acts + [a])[1..] == acts[1..] + [a];
    }
  }

  /** A call begins and takes one step. */
  lemma Asks(w: World, acts: seq<Action>, mid: World, c: nat, r: Request) returns (acts': seq<Action>, end: World)
    requires Run(w, acts, mid) && Enabled(mid, BeginCall(c, r))
    ensures acts' == acts + [BeginCall(c, r), StepCall(c, FINE)] && Run(w, acts', end)
    ensures end.db == if r.key in mid.db.slots then mid.db else mid.db.(slots := mid.db.slots[r.key := r.id])
    ensures end.asking == mid.asking.(
      calls := mid.asking.calls[c := Call(r, if r.key in mid.db.slots then Existing(mid.db.slots[r.key]) else Create)],
      keyOf := mid.asking.keyOf[r.id := r.key])
  {
    hide Run;
    var begun := Apply(mid, BeginCall(c, r));
    OneMore(w, acts, mid, BeginCall(c, r));
    OneMore(w, acts + [BeginCall(c, r)], begun, StepCall(c, FINE));
    acts', end := acts + [BeginCall(c, r), StepCall(c, FINE)], Apply(begun, StepCall(c, FINE));
    assert acts' == acts + [BeginCall(c, r)] + [StepCall(c, FINE)];
  }

  /** The caller of a key that is only claimed is told the slot's id. */
  lemma IsToldTheSlot(w: World, acts: seq<Action>, mid: World, c: nat) returns (acts': seq<Action>, end: World)
    requires Run(w, acts, mid) && c in mid.asking.calls && mid.asking.calls[c].phase.Existing?
    requires mid.asking.calls[c].phase.id !in mid.db.requests && mid.asking.calls[c].r.key !in mid.db.byKey
    ensures acts' == acts + [StepCall(c, FINE), StepCall(c, FINE)] && Run(w, acts', end)
    ensures end.db == mid.db && end.asking.calls == mid.asking.calls - {c} && end.asking.keyOf == mid.asking.keyOf
    ensures end.asking.answers ==
            mid.asking.answers + [Answered(mid.asking.calls[c].r.key, mid.asking.calls[c].phase.id)]
  {
    hide Run;
    var looked := Apply(mid, StepCall(c, FINE));
    OneMore(w, acts, mid, StepCall(c, FINE));
    OneMore(w, acts + [StepCall(c, FINE)], looked, StepCall(c, FINE));
    acts', end := acts + [StepCall(c, FINE), StepCall(c, FINE)], Apply(looked, StepCall(c, FINE));
    assert acts' == acts + [StepCall(c, FINE)] + [StepCall(c, FINE)];
  }

  /** A call with a free key goes through. */
  lemma GoesThrough(w: World, acts: seq<Action>, mid: World, c: nat) returns (acts': seq<Action>, end: World)
    requires Run(w, acts, mid) && c in mid.asking.calls && mid.asking.calls[c].phase == Create
    requires mid.asking.calls[c].r.key !in mid.db.byKey
    ensures acts' == acts + [StepCall(c, FINE), StepCall(c, FINE), StepCall(c, FINE)] && Run(w, acts', end)
    ensures end.asking.answers ==
            mid.asking.answers + [Answered(mid.asking.calls[c].r.key, mid.asking.calls[c].r.id)]
  {
    hide Run;
    var step := StepCall(c, FINE);
    var w1 := Apply(mid, step);
    var w2 := Apply(w1, step);
    OneMore(w, acts, mid, step);
    OneMore(w, acts + [step], w1, step);
    OneMore(w, acts + [step] + [step], w2, step);
    acts', end := acts + [step, step, step], Apply(w2, step);
    assert acts' == acts + [step] + [step] + [step];
  }

  /** From a reachable state on: two callers of the key have been given different ids. */
  ghost predicate Split(w: World, key: string) {
    exists a, b :: a in w.asking.answers && b in w.asking.answers && a.key == key == b.key && a.id != b.id
  }

  /** Some calm run that begins with the slot's expiry ends with the key's answers split. */
  ghost predicate ExpiryCanSplit(w: World, key: string) {
    exists more, end :: CalmRun(Apply(w, SlotExpires(key)), more, end) && Split(end, key)
  }

  lemma {:induction false} LongerThanAll(s: set<string>) returns (n: nat)
    ensures n > 0 && forall x :: x in s ==> |x| < n
    decreases s
  {
    n := 1;
    if x :| x in s {
      var m := LongerThanAll(s - {x});
      n := m + |x| + 1;
    }
  }

  lemma {:induction false} AboveAll(s: set<nat>) returns (n: nat)
    ensures forall x :: x in s ==> x < n
    decreases s
  {
    n := 0;
    if x :| x in s {
      var m := AboveAll(s - {x});
      n := m + x + 1;
      assert forall y :: y in s ==> y == x || y in s - {x};
    }
  }

  function Text(n: nat): (s: string)
    ensures |s| == n
  {
    seq(n, _ => 'x')
  }

  /** A run of beginnings and faultless steps is calm. */
  lemma {:induction false} FaultlessIsCalm(w: World, acts: seq<Action>, end: World)
    requires Run(w, acts, end)
    requires forall a :: a in acts ==> a.BeginCall? || (a.StepCall? && a.o.ok)
    ensures CalmRun(w, acts, end)
    decreases |acts|
  {
    hide Apply, Enabled;
    if acts != [] {
      assert acts[0] in acts;
      FaultlessIsCalm(Apply(w, acts[0]), acts[1..], end);
    }
  }

  /** With the slot gone, one call claims it again and another is told the first one's id. */
  lemma ClaimedAgain(w: World, c: nat, r: Request, m: nat, b: string, d: string) returns (acts: seq<Action>, end: World)
    requires c in w.asking.calls && c < m && IsNew(r) && r.key !in w.db.byKey && r.key !in w.db.slots
    requires m !in w.asking.calls && m + 1 !in w.asking.calls
    requires b != "" && d != "" && b != d && b !in w.asking.keyOf && d !in w.asking.keyOf && b !in w.db.requests
    ensures Run(w, acts, end) && forall a :: a in acts ==> a.BeginCall? || (a.StepCall? && a.o.ok)
    ensures end.db.byKey == w.db.byKey && c in end.asking.calls && end.asking.calls[c] == w.asking.calls[c]
    ensures end.asking.answers == w.asking.answers + [Answered(r.key, b)]
  {
    hide Run, Apply, CallStepped, CallDb, IsNew;
    var w1, w2;
    assert Run(w, [], w) by { NoSteps(w); }
    assert Enabled(w, BeginCall(m, r.(id := b))) by { StillNew(r, b); }
    acts, w1 := Asks(w, [], w, m, r.(id := b));
    assert Enabled(w1, BeginCall(m + 1, r.(id := d))) by { StillNew(r, d); }
    acts, w2 := Asks(w, acts, w1, m + 1, r.(id := d));
    acts, end := IsToldTheSlot(w, acts, w2, m + 1);
  }

  lemma StillNew(r: Request, id: string)
    requires IsNew(r)
    ensures IsNew(r.(id := id))
  {
  }

  /** After an expiry with a call about to create: a second call claims the slot, a third is told the second's id, and
      then the first stores its own. */
  lemma SplitAfter(w: World, c: nat) returns (acts: seq<Action>, end: World)
    requires IdemInv(w.db, w.asking) && c in w.asking.calls && w.asking.calls[c].phase == Create
    requires w.asking.calls[c].r.key !in w.db.byKey && w.asking.calls[c].r.key !in w.db.slots
    ensures CalmRun(w, acts, end) && Split(end, w.asking.calls[c].r.key)
  {
    var r := w.asking.calls[c].r;
    assert CallOk(w.db.requests, w.asking.keyOf, w.asking.jobs, w.asking.calls[c]);
    assert forall id :: id in w.db.requests ==> id in w.asking.keyOf;
    var m, b, d := Unused(w.asking);
    hide IdemInv, Run, CalmRun, Split, IsNew;
    var mid;
    acts, mid := ClaimedAgain(w, c, r, m, b, d);
    acts, end := GoesThrough(w, acts, mid, c);
    FaultlessIsCalm(w, acts, end);
    TwoAnswersSplit(end, Answered(r.key, b), Answered(r.key, r.id));
  }

  /** Call numbers and ids nobody has drawn. */
  lemma Unused(q: Requesting) returns (m: nat, b: string, d: string)
    ensures b != "" && d != "" && b != d && b !in q.keyOf && d !in q.keyOf
    ensures m !in q.calls && m + 1 !in q.calls && forall c :: c in q.calls ==> c < m
  {
    var n := LongerThanAll(q.keyOf.Keys);
    m := AboveAll(q.calls.Keys);
    b, d := Text(n), Text(n + 1);
    assert |b| != |d|;
    assert forall x :: x in q.keyOf ==> x in q.keyOf.Keys;
    assert forall x :: x in q.calls ==> x in q.calls.Keys;
  }

  lemma TwoAnswersSplit(w: World, a: Answered, b: Answered)
    requires a in w.asking.answers && b in w.asking.answers && a.key == b.key && a.id != b.id
    ensures Split(w, a.key)
  {
  }

  /** The exact condition: in a state reached calmly, the expiry of a key's slot can split the key's answers exactly
      when the slot is held and the key's request is not stored yet. */
  lemma ExpirySplitsIffNotStored(acts: seq<Action>, w: World, key: string)
    requires CalmRun(START, acts, w)
    ensures ExpiryCanSplit(w, key) <==> key in w.db.slots && key !in w.db.byKey
  {
    AgreeRun(START, acts, w);
    hide IdemInv, AgreeInv, CalmRun, ExpiryCanSplit;
    if key in w.db.slots && key !in w.db.byKey { HarmfulExpiry(w, key); } else { HarmlessExpiry(w, key); }
  }

  lemma HarmfulExpiry(w: World, key: string)
    requires AgreeInv(w.db.byKey, w.db.slots, w.asking) && IdemInv(w.db, w.asking)
    requires key in w.db.slots && key !in w.db.byKey
    ensures ExpiryCanSplit(w, key)
  {
    hide AgreeInv, IdemInv, CalmRun, Split, Apply;
    var c := HolderOf(w.db.byKey, w.db.slots, w.asking, key);
    IdemStep(w, SlotExpires(key));
    ExpiredWorld(w, key);
    var more, end := SplitAfter(Apply(w, SlotExpires(key)), c);
  }

  lemma HolderOf(byKey: Index, slots: Index, q: Requesting, key: string) returns (c: nat)
    requires AgreeInv(byKey, slots, q) && key in slots && key !in byKey
    ensures c in q.calls && q.calls[c].phase == Create && q.calls[c].r.key == key
  {
    c :| c in q.calls && Creates(q.calls[c], key, slots[key]);
  }

  lemma HarmlessExpiry(w: World, key: string)
    requires AgreeInv(w.db.byKey, w.db.slots, w.asking) && IdemInv(w.db, w.asking)
    requires key in w.db.byKey || key !in w.db.slots
    ensures !ExpiryCanSplit(w, key)
  {
    IdemStep(w, SlotExpires(key));
    AgreeStep(w, SlotExpires(key));
    hide Apply, IdemInv, AgreeInv, CalmRun;
    forall more, end | CalmRun(Apply(w, SlotExpires(key)), more, end)
      ensures !Split(end, key)
    {
      AgreeRun(Apply(w, SlotExpires(key)), more, end);
      AnswersOfAKey(end);
    }
  }

  /** Such a state is reached: from the start, a slot that expires between a call's Claim and its Create lets two
      callers of one key be given different ids, with no fault and no crash anywhere. */
  lemma ExpiryUnderACallSplitsAnswers(r: Request, a: string, b: string, d: string)
      returns (acts: seq<Action>, w: World)
    requires WellFormed(r) && r.status == Queued && r.refinement == ""
    requires a != "" && b != "" && d != "" && a != b && b != d && a != d
    ensures Run(START, acts, w)
    ensures forall act :: act in acts ==> (act.StepCall? && act.o.ok) || act.BeginCall? || act.SlotExpires?
    ensures w.asking.answers == [Answered(r.key, a), Answered(r.key, d)]
  {
    hide Run, Apply, CallStepped, CallDb;
    var w4, w5;
    acts, w4 := ToldThenExpired(r, a, b);
    acts, w5 := Asks(START, acts, w4, 2, r.(id := d));
    acts, w := GoesThrough(START, acts, w5, 2);
  }

  lemma ToldThenExpired(r: Request, a: string, b: string) returns (acts: seq<Action>, w: World)
    requires WellFormed(r) && r.status == Queued && r.refinement == ""
    requires a != "" && b != "" && a != b
    ensures Run(START, acts, w)
    ensures forall act :: act in acts ==> (act.StepCall? && act.o.ok) || act.BeginCall? || act.SlotExpires?
    ensures w.db.byKey == map[] && r.key !in w.db.slots
    ensures w.asking.calls.Keys == {0} && w.asking.keyOf.Keys == {a, b} && w.asking.answers == [Answered(r.key, a)]
  {
    hide Run, Apply, CallStepped, CallDb;
    var w1, w2, w3;
    NoSteps(START);
    acts, w1 := Asks(START, [], START, 0, r.(id := a));
    acts, w2 := Asks(START, acts, w1, 1, r.(id := b));
    acts, w3 := IsToldTheSlot(START, acts, w2, 1);
    OneMore(START, acts, w3, SlotExpires(r.key));
    w := Apply(w3, SlotExpires(r.key));
    ExpiredWorld(w3, r.key);
    acts := acts + [SlotExpires(r.key)];
  }

  lemma NoSteps(w: World)
    ensures Run(w, [], w)
  {
  }

  lemma ExpiredWorld(w: World, key: string)
    ensures var w' := Apply(w, SlotExpires(key));
      w'.asking == w.asking && w'.db == w.db.(slots := w.db.slots - {key})
  {
  }
}
