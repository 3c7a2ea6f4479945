/** Every interleaving of generation requests, refinements and worker runs, one store operation at a time, with faults,
    crashes and expiring cache entries: one request and one job for a key. */
module GenerationRuns {
  import opened Common
  import opened Generation

  /** How one operation ends: `ok` as its caller sees it; a failed write may still be `applied`. */
  datatype Outcome = Outcome(ok: bool, applied: bool, candidates: seq<Candidate>, verdicts: seq<Verdict>) {
    predicate Writes() {
      ok || applied
    }
  }

  /** The cached status, where the write gets through. */
  function Told(db: Db, id: string, s: Status, progress: int, o: Outcome): Db {
    if o.Writes() then db.(status := db.status[id := StatusInfo(s, progress)]) else db
  }

  /** The stored status, where the write gets through. */
  function Noted(db: Db, id: string, s: Status, o: Outcome): Db {
    if o.Writes() then StatusSet(db, id, s) else db
  }

  // ---- RequestGeneration ----

  /** Where a call stands, named by what it does next. */
  datatype Phase =
    | Claim
    | Existing(id: string)
    | ExistingByKey(id: string)
    | Create
    | Duplicate
    | TellQueued
    | Enqueue

  datatype Call = Call(r: Request, phase: Phase)

  datatype Answered = Answered(key: string, id: string)

  /** The calls under way, the key each drawn id is for, the ids enqueued and the answers given. */
  datatype Requesting = Requesting(calls: map<nat, Call>, keyOf: map<string, string>, jobs: seq<string>,
                                   answers: seq<Answered>)

  function CallDb(db: Db, call: Call, o: Outcome): Db {
    if !o.Writes() then db
    else
      match call.phase
      case Claim => SlotSet(db, call.r.key, call.r.id)
      case Create => Created(db, call.r)
      case TellQueued => Told(db, call.r.id, Queued, 0, o)
      case _ => db
  }

  datatype Move = Goto(phase: Phase) | Reply(id: string) | Abort

  function CallMove(db: Db, call: Call, o: Outcome): Move {
    var key := call.r.key;
    match call.phase
    case Claim =>
      if !o.ok then Abort else if key in db.slots then Goto(Existing(db.slots[key])) else Goto(Create)
    case Existing(id) => if o.ok && id in db.requests then Reply(id) else Goto(ExistingByKey(id))
    case ExistingByKey(id) => Reply(if o.ok && key in db.byKey then db.byKey[key] else id)
    case Create => if !o.ok then Abort else Goto(if key in db.byKey then Duplicate else TellQueued)
    case Duplicate => if o.ok && key in db.byKey then Reply(db.byKey[key]) else Abort
    case TellQueued => Goto(Enqueue)
    case Enqueue => if o.ok then Reply(call.r.id) else Abort
  }

  function Moved(q: Requesting, c: nat, m: Move): Requesting
    requires c in q.calls
  {
    match m
    case Goto(phase) => q.(calls := q.calls[c := q.calls[c].(phase := phase)])
    case Reply(id) => q.(calls := q.calls - {c}, answers := q.answers + [Answered(q.calls[c].r.key, id)])
    case Abort => q.(calls := q.calls - {c})
  }

  function CallStepped(db: Db, q: Requesting, c: nat, o: Outcome): Requesting
    requires c in q.calls
  {
    var q' := Moved(q, c, CallMove(db, q.calls[c], o));
    if q.calls[c].phase == Enqueue && o.Writes() then q'.(jobs := q.jobs + [q.calls[c].r.id]) else q'
  }

  // ---- Refine ----

  datatype RefinePhase = Load | Mark | Retell | Requeue

  datatype Refinement = Refinement(id: string, text: string, phase: RefinePhase)

  datatype Refining = Refining(calls: map<nat, Refinement>, jobs: seq<string>)

  function RefineDb(db: Db, f: Refinement, o: Outcome): Db {
    match f.phase
    case Mark => if o.Writes() then RefinementMarked(db, f.id, f.text) else db
    case Retell => Told(db, f.id, Queued, 0, o)
    case _ => db
  }

  function RefineStepped(db: Db, q: Refining, c: nat, o: Outcome): Refining
    requires c in q.calls
  {
    var f := q.calls[c];
    match f.phase
    case Load =>
      q.(calls := if o.ok && f.id in db.requests then q.calls[c := f.(phase := Mark)] else q.calls - {c})
    case Mark => q.(calls := if o.ok then q.calls[c := f.(phase := Retell)] else q.calls - {c})
    case Retell => q.(calls := q.calls[c := f.(phase := Requeue)])
    case Requeue => Refining(q.calls - {c}, if o.Writes() then q.jobs + [f.id] else q.jobs)
  }

  // ---- Worker runs ----

  /** Where a run stands; `progress` is 10, 40 or 70. */
  datatype Pc =
    | TellRunning(progress: int)
    | NoteRunning(progress: int)
    | ReadCache
    | Generate
    | Moderate
    | Save
    | TellReady
    | NoteReady
    | Announce
    | TellFailed
    | NoteFailed

  datatype Work = Work(req: Request, pc: Pc, candidates: seq<Candidate>)

  datatype Moderated = Moderated(requestId: string, candidates: seq<Candidate>, verdicts: seq<Verdict>) {
    predicate Valid() {
      |verdicts| == |candidates|
    }

    function Ideas(): seq<Idea> {
      if Valid() then Stamped(requestId, Kept(candidates, verdicts)) else []
    }
  }

  /** The runs under way, what each run moderated, the run that saved a request's ideas last, the events published. */
  datatype Generating = Generating(works: map<nat, Work>, moderated: map<nat, Moderated>, savedBy: map<string, nat>,
                                   announced: seq<IdeasReady>)

  function Result(g: Generating, run: nat): seq<Idea> {
    if run in g.moderated then g.moderated[run].Ideas() else []
  }

  function RunDb(db: Db, g: Generating, run: nat, o: Outcome): Db
    requires run in g.works
  {
    var id := g.works[run].req.id;
    match g.works[run].pc
    case TellRunning(p) => Told(db, id, Running, p, o)
    case NoteRunning(_) => Noted(db, id, Running, o)
    case Save => if o.Writes() then db.(ideas := db.ideas[id := Result(g, run)]) else db
    case TellReady => Told(db, id, Ready, 100, o)
    case NoteReady => Noted(db, id, Ready, o)
    case TellFailed => Told(db, id, Failed, 0, o)
    case NoteFailed => Noted(db, id, Failed, o)
    case _ => db
  }

  /** What the run does next; None when it is over. */
  function NextPc(work: Work, o: Outcome): Option<Pc>
    requires work.pc == Moderate ==> |o.verdicts| == |work.candidates|
  {
    match work.pc
    case TellRunning(p) => Some(NoteRunning(p))
    case NoteRunning(p) => Some(if p == 10 then ReadCache else if p == 40 then Generate else Moderate)
    case ReadCache => Some(TellRunning(if o.ok && o.candidates != [] then 70 else 40))
    case Generate => Some(if o.ok then TellRunning(70) else TellFailed)
    case Moderate => Some(if Kept(work.candidates, o.verdicts) == [] then TellFailed else Save)
    case Save => if o.ok then Some(TellReady) else None
    case TellReady => Some(NoteReady)
    case NoteReady => if o.ok then Some(Announce) else None
    case Announce => None
    case TellFailed => Some(NoteFailed)
    case NoteFailed => None
  }

  function RunStepped(g: Generating, run: nat, o: Outcome): Generating
    requires run in g.works && (g.works[run].pc == Moderate ==> |o.verdicts| == |g.works[run].candidates|)
  {
    var work, next := g.works[run], NextPc(g.works[run], o);
    var g' := g.(works := if next.Some? then g.works[run := work.(pc := next.value)] else g.works - {run});
    match work.pc
    case ReadCache =>
      if o.ok && o.candidates != [] then WithCandidates(g', run, o.candidates) else g'
    case Generate => if o.ok then WithCandidates(g', run, o.candidates) else g'
    case Moderate => g'.(moderated := g.moderated[run := Moderated(work.req.id, work.candidates, o.verdicts)])
    case Save => if o.Writes() then g'.(savedBy := g.savedBy[work.req.id := run]) else g'
    case Announce =>
      if o.Writes() then g'.(announced := g.announced + [IdeasReady(work.req.id, work.req.userId, |Result(g, run)|)])
      else g'
    case _ => g'
  }

  function WithCandidates(g: Generating, run: nat, candidates: seq<Candidate>): Generating {
    if run in g.works then g.(works := g.works[run := g.works[run].(candidates := candidates)]) else g
  }

  // ---- All of it ----

  datatype World = World(db: Db, asking: Requesting, refining: Refining, making: Generating)

  const START :=
    World(EMPTY, Requesting(map[], map[], [], []), Refining(map[], []), Generating(map[], map[], map[], []))

  datatype Action =
    | BeginCall(c: nat, r: Request)
    | StepCall(c: nat, o: Outcome)
    | BeginRefine(c: nat, id: string, text: string)
    | StepRefine(c: nat, o: Outcome)
    | BeginRun(run: nat, id: string)
    | StepRun(run: nat, o: Outcome)
    | CrashCall(c: nat)
    | CrashRefine(c: nat)
    | CrashRun(run: nat)
    | SlotExpires(key: string)
    | StatusExpires(id: string)

  /** A request as RequestGeneration builds it once its fields are checked. */
  predicate IsNew(r: Request) {
    WellFormed(r) && r.status == Queued && r.refinement == ""
  }

  ghost predicate Enabled(w: World, a: Action) {
    match a
    case BeginCall(c, r) =>
      && c !in w.asking.calls && IsNew(r) && r.id != "" && r.id !in w.asking.keyOf
    case StepCall(c, _) => c in w.asking.calls
    case BeginRefine(c, id, text) => c !in w.refining.calls && id != "" && text != ""
    case StepRefine(c, _) => c in w.refining.calls
    case BeginRun(run, id) =>
      run !in w.making.works && run !in w.making.moderated && (id in w.asking.jobs || id in w.refining.jobs)
    case StepRun(run, o) =>
      && run in w.making.works
      && (w.making.works[run].pc == Moderate ==> |o.verdicts| == |w.making.works[run].candidates|)
    case _ => true
  }

  function Apply(w: World, a: Action): World
    requires Enabled(w, a)
  {
    var q, f, g := w.asking, w.refining, w.making;
    match a
    case BeginCall(c, r) =>
      w.(asking := q.(calls := q.calls[c := Call(r, Claim)], keyOf := q.keyOf[r.id := r.key]))
    case StepCall(c, o) => w.(db := CallDb(w.db, q.calls[c], o), asking := CallStepped(w.db, q, c, o))
    case BeginRefine(c, id, text) => w.(refining := f.(calls := f.calls[c := Refinement(id, text, Load)]))
    case StepRefine(c, o) => w.(db := RefineDb(w.db, f.calls[c], o), refining := RefineStepped(w.db, f, c, o))
    case BeginRun(run, id) =>
      if id in w.db.requests then
        w.(making := g.(works := g.works[run := Work(w.db.requests[id], TellRunning(10), [])]))
      else w
    case StepRun(run, o) => w.(db := RunDb(w.db, g, run, o), making := RunStepped(g, run, o))
    case CrashCall(c) => w.(asking := q.(calls := q.calls - {c}))
    case CrashRefine(c) => w.(refining := f.(calls := f.calls - {c}))
    case CrashRun(run) => w.(making := g.(works := g.works - {run}))
    case SlotExpires(key) => w.(db := w.db.(slots := w.db.slots - {key}))
    case StatusExpires(id) => w.(db := w.db.(status := w.db.status - {id}))
  }

  ghost predicate Run(w: World, acts: seq<Action>, end: World)
    decreases |acts|
  {
    if acts == [] then end == w else Enabled(w, acts[0]) && Run(Apply(w, acts[0]), acts[1..], end)
  }

  // ---- One request and one job for a key ----

  type Requests = map<string, Request>

  ghost predicate KeysOk(rs: Requests, byKey: map<string, string>, keyOf: map<string, string>) {
    && (forall id :: id in rs ==>
          && rs[id].id == id
          && id in keyOf && rs[id].key == keyOf[id]
          && keyOf[id] in byKey && byKey[keyOf[id]] == id)
    && (forall key :: key in byKey ==> byKey[key] in rs && keyOf[byKey[key]] == key)
  }

  /** Every call has an id of its own, stored exactly from Create on and enqueued only by its last step. */
  ghost predicate CallOk(rs: Requests, keyOf: map<string, string>, jobs: seq<string>, call: Call) {
    var id := call.r.id;
    && id in keyOf && keyOf[id] == call.r.key
    && IsNew(call.r)
    && id !in jobs
    && (call.phase == TellQueued || call.phase == Enqueue <==> id in rs)
  }

  ghost predicate CallsOk(rs: Requests, q: Requesting) {
    && (forall c :: c in q.calls ==> CallOk(rs, q.keyOf, q.jobs, q.calls[c]))
    && (forall c, d :: c in q.calls && d in q.calls && q.calls[c].r.id == q.calls[d].r.id ==> c == d)
  }

  ghost predicate JobsOk(rs: Requests, jobs: seq<string>) {
    && (forall i :: 0 <= i < |jobs| ==> jobs[i] in rs)
    && (forall i, j :: 0 <= i < j < |jobs| ==> jobs[i] != jobs[j])
  }

  ghost predicate IdemInv(db: Db, q: Requesting) {
    KeysOk(db.requests, db.byKey, q.keyOf) && CallsOk(db.requests, q) && JobsOk(db.requests, q.jobs)
  }

  ghost predicate SameIds(rs: Requests, rs': Requests) {
    && (forall id :: id in rs' <==> id in rs)
    && (forall id :: id in rs ==> rs'[id].id == rs[id].id && rs'[id].key == rs[id].key)
  }

  /** What refinements and worker runs leave alone. */
  ghost predicate SameKeys(db: Db, db': Db) {
    db'.byKey == db.byKey && db'.slots == db.slots && SameIds(db.requests, db'.requests)
  }

  lemma NotedKeepsKeys(db: Db, id: string, s: Status, o: Outcome)
    ensures SameKeys(db, Noted(db, id, s, o))
  {
  }

  lemma RunsKeepKeys(db: Db, g: Generating, run: nat, o: Outcome)
    requires run in g.works
    ensures SameKeys(db, RunDb(db, g, run, o))
  {
    hide Result, Noted;
    match g.works[run].pc
    case NoteRunning(_) => NotedKeepsKeys(db, g.works[run].req.id, Running, o);
    case NoteReady => NotedKeepsKeys(db, g.works[run].req.id, Ready, o);
    case NoteFailed => NotedKeepsKeys(db, g.works[run].req.id, Failed, o);
    case _ => assert RunDb(db, g, run, o).requests == db.requests;
  }

  lemma RefinesKeepKeys(db: Db, f: Refinement, o: Outcome)
    ensures SameKeys(db, RefineDb(db, f, o))
  {
  }

  /** Refinements, worker runs and lapsing statuses. */
  predicate OfOthers(a: Action) {
    a.BeginRefine? || a.StepRefine? || a.BeginRun? || a.StepRun? || a.CrashRefine? || a.CrashRun? || a.StatusExpires?
  }

  lemma OthersKeepKeys(w: World, a: Action)
    requires Enabled(w, a) && OfOthers(a)
    ensures SameKeys(w.db, Apply(w, a).db) && Apply(w, a).asking == w.asking
  {
    hide RunDb, RefineDb, RunStepped, RefineStepped;
    if a.StepRun? {
      RunsKeepKeys(w.db, w.making, a.run, a.o);
    } else if a.StepRefine? {
      RefinesKeepKeys(w.db, w.refining.calls[a.c], a.o);
    }
  }

  lemma SameKeysKeepIdem(db: Db, db': Db, q: Requesting)
    requires IdemInv(db, q) && SameKeys(db, db')
    ensures IdemInv(db', q)
  {
    forall c | c in q.calls
      ensures CallOk(db'.requests, q.keyOf, q.jobs, q.calls[c])
    {
      assert CallOk(db.requests, q.keyOf, q.jobs, q.calls[c]);
    }
  }

  /** A call moves on to a phase that agrees with what is stored under its id, or ends. */
  lemma MovedOk(rs: Requests, q: Requesting, c: nat, m: Move)
    requires CallsOk(rs, q) && c in q.calls
    requires m.Goto? ==> (m.phase == TellQueued || m.phase == Enqueue <==> q.calls[c].r.id in rs)
    ensures CallsOk(rs, Moved(q, c, m))
  {
    var q' := Moved(q, c, m);
    forall d | d in q'.calls
      ensures CallOk(rs, q.keyOf, q.jobs, q'.calls[d])
    {
      assert CallOk(rs, q.keyOf, q.jobs, q.calls[d]);
    }
  }

  /** A new request under a free key. */
  lemma StoredOk(db: Db, q: Requesting, c: nat, m: Move)
    requires IdemInv(db, q) && c in q.calls && q.calls[c].phase == Create && q.calls[c].r.key !in db.byKey
    requires m == Abort || m == Goto(TellQueued)
    ensures var db' := Created(db, q.calls[c].r);
      KeysOk(db'.requests, db'.byKey, q.keyOf) && JobsOk(db'.requests, q.jobs) && CallsOk(db'.requests, Moved(q, c, m))
  {
    assert CallOk(db.requests, q.keyOf, q.jobs, q.calls[c]);
    KeysStored(db.requests, db.byKey, q.keyOf, q.calls[c].r);
    assert JobsOk(db.requests[q.calls[c].r.id := q.calls[c].r], q.jobs);
    CallsStored(db.requests, q, c, m);
    hide KeysOk, JobsOk, CallsOk, CallOk;
  }

  lemma KeysStored(rs: Requests, byKey: map<string, string>, keyOf: map<string, string>, r: Request)
    requires KeysOk(rs, byKey, keyOf) && r.id !in rs && r.key !in byKey && r.id in keyOf && keyOf[r.id] == r.key
    ensures KeysOk(rs[r.id := r], byKey[r.key := r.id], keyOf)
  {
  }

  lemma CallsStored(rs: Requests, q: Requesting, c: nat, m: Move)
    requires CallsOk(rs, q) && c in q.calls && q.calls[c].phase == Create && (m == Abort || m == Goto(TellQueued))
    ensures CallsOk(rs[q.calls[c].r.id := q.calls[c].r], Moved(q, c, m))
  {
    hide IsNew;
    var rs', q' := rs[q.calls[c].r.id := q.calls[c].r], Moved(q, c, m);
    forall d | d in q'.calls
      ensures CallOk(rs', q.keyOf, q.jobs, q'.calls[d])
    {
      assert CallOk(rs, q.keyOf, q.jobs, q.calls[d]);
    }
  }

  lemma IdemEnqueue(db: Db, q: Requesting, c: nat, o: Outcome)
    requires IdemInv(db, q) && c in q.calls && q.calls[c].phase == Enqueue
    ensures IdemInv(db, CallStepped(db, q, c, o))
  {
    hide IsNew;
    var q' := CallStepped(db, q, c, o);
    assert CallOk(db.requests, q.keyOf, q.jobs, q.calls[c]);
    forall d | d in q'.calls
      ensures CallOk(db.requests, q.keyOf, q'.jobs, q'.calls[d])
    {
      assert CallOk(db.requests, q.keyOf, q.jobs, q.calls[d]);
    }
  }

  lemma IdemCallStep(db: Db, q: Requesting, c: nat, o: Outcome)
    requires IdemInv(db, q) && c in q.calls
    ensures IdemInv(CallDb(db, q.calls[c], o), CallStepped(db, q, c, o))
  {
    var m := CallMove(db, q.calls[c], o);
    assert CallOk(db.requests, q.keyOf, q.jobs, q.calls[c]);
    hide CallsOk, KeysOk, JobsOk;
    if q.calls[c].phase == Enqueue {
      IdemEnqueue(db, q, c, o);
    } else if q.calls[c].phase == Create && o.Writes() && q.calls[c].r.key !in db.byKey {
      StoredOk(db, q, c, m);
    } else {
      MovedOk(db.requests, q, c, m);
    }
  }

  lemma IdemStep(w: World, a: Action)
    requires Enabled(w, a) && IdemInv(w.db, w.asking)
    ensures IdemInv(Apply(w, a).db, Apply(w, a).asking)
  {
    hide CallDb, CallStepped, RunDb, RunStepped, RefineDb, RefineStepped, SameKeys;
    if OfOthers(a) {
      hide IdemInv, Apply;
      OthersKeepKeys(w, a);
      SameKeysKeepIdem(w.db, Apply(w, a).db, w.asking);
    } else if a.StepCall? {
      hide IdemInv;
      IdemCallStep(w.db, w.asking, a.c, a.o);
    } else if a.CrashCall? {
      assert a.c in w.asking.calls ==> Apply(w, a).asking == Moved(w.asking, a.c, Abort);
      if a.c in w.asking.calls { MovedOk(w.db.requests, w.asking, a.c, Abort); }
    } else if a.BeginCall? {
      var q, q' := w.asking, Apply(w, a).asking;
      forall d | d in q'.calls
        ensures CallOk(w.db.requests, q'.keyOf, q'.jobs, q'.calls[d])
      {
        if d in q.calls { assert CallOk(w.db.requests, q.keyOf, q.jobs, q.calls[d]); }
      }
    }
  }

  lemma {:induction false} IdemRun(w: World, acts: seq<Action>, end: World)
    requires Run(w, acts, end) && IdemInv(w.db, w.asking)
    ensures IdemInv(end.db, end.asking)
    decreases |acts|
  {
    hide Apply, Enabled, IdemInv;
    if acts != [] {
      IdemStep(w, acts[0]);
      IdemRun(Apply(w, acts[0]), acts[1..], end);
    }
  }

  /** In every interleaving, faults, crashes and expiring slots included, an idempotency key has at most one stored
      request and RequestGeneration enqueues at most one job for it, after that request is stored. */
  lemma OneRequestAndOneJob(acts: seq<Action>, w: World)
    requires Run(START, acts, w)
    ensures forall a, b :: a in w.db.requests && b in w.db.requests && w.db.requests[a].key == w.db.requests[b].key ==>
              a == b
    ensures forall i :: 0 <= i < |w.asking.jobs| ==> w.asking.jobs[i] in w.db.requests
    ensures forall i, j :: 0 <= i < j < |w.asking.jobs| ==>
              w.db.requests[w.asking.jobs[i]].key != w.db.requests[w.asking.jobs[j]].key
  {
    IdemRun(START, acts, w);
  }
}
