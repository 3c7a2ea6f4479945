/** In every interleaving a request that reads ready has ideas, and they are what the run that saved them approved. */
module GenerationIdeas {
  import opened Generation
  import opened GenerationRuns

  type Lists = map<string, seq<Idea>>
  type Verdicts = map<nat, Moderated>

  /** A request's saved ideas are the result of the run that saved them last, and not empty. */
  ghost predicate Evident(ideas: Lists, moderated: Verdicts, savedBy: map<string, nat>, id: string) {
    && id in ideas && id in savedBy && savedBy[id] in moderated
    && moderated[savedBy[id]].requestId == id
    && moderated[savedBy[id]].Valid()
    && ideas[id] == moderated[savedBy[id]].Ideas() != []
  }

  ghost predicate IdeasOk(ideas: Lists, moderated: Verdicts, savedBy: map<string, nat>) {
    forall id :: id in ideas ==> Evident(ideas, moderated, savedBy, id)
  }

  ghost predicate StatusesOk(db: Db) {
    && (forall id :: id in db.requests ==> db.requests[id].id == id)
    && (forall id :: id in db.requests && db.requests[id].status == Ready ==> id in db.ideas)
    && (forall id :: id in db.status && db.status[id].status == Ready ==> id in db.ideas)
  }

  predicate HasModerated(pc: Pc) {
    pc == Save || pc == TellReady || pc == NoteReady || pc == Announce
  }

  /** A run has a result from Save on, saved from TellReady on. */
  ghost predicate WorkOk(ideas: Lists, moderated: Verdicts, run: nat, work: Work) {
    && (work.pc != TellFailed && work.pc != NoteFailed ==> (HasModerated(work.pc) <==> run in moderated))
    && (HasModerated(work.pc) ==>
          moderated[run].Valid() && moderated[run].requestId == work.req.id && moderated[run].Ideas() != [])
    && (HasModerated(work.pc) && work.pc != Save ==> work.req.id in ideas)
  }

  ghost predicate WorksOk(ideas: Lists, moderated: Verdicts, works: map<nat, Work>) {
    forall run :: run in works ==> WorkOk(ideas, moderated, run, works[run])
  }

  ghost predicate Counts(m: Moderated, e: IdeasReady) {
    m.requestId == e.requestId && |m.Ideas()| == e.count > 0
  }

  ghost predicate Backed(moderated: Verdicts, e: IdeasReady) {
    exists run :: run in moderated && Counts(moderated[run], e)
  }

  /** Every announced count is the number of ideas some run of that request kept. */
  ghost predicate AnnouncedOk(moderated: Verdicts, announced: seq<IdeasReady>) {
    forall e :: e in announced ==> Backed(moderated, e)
  }

  ghost predicate ReadyInv(db: Db, g: Generating) {
    && IdeasOk(db.ideas, g.moderated, g.savedBy)
    && StatusesOk(db)
    && WorksOk(db.ideas, g.moderated, g.works)
    && AnnouncedOk(g.moderated, g.announced)
  }

  // ---- Steps that save no ideas ----

  /** Ideas stay; a status may become ready only where there are ideas. */
  ghost predicate OnlyStatuses(db: Db, db': Db) {
    db'.ideas == db.ideas && (StatusesOk(db) ==> StatusesOk(db'))
  }

  lemma ToldOk(db: Db, id: string, s: Status, progress: int, o: Outcome)
    requires s == Ready ==> id in db.ideas
    ensures OnlyStatuses(db, Told(db, id, s, progress, o)) && OnlyStatuses(db, Noted(db, id, s, o))
  {
  }

  lemma CallDbOk(db: Db, call: Call, o: Outcome)
    requires call.r.status == Queued
    ensures OnlyStatuses(db, CallDb(db, call, o))
  {
    match call.phase
    case Create => CreatedOk(db, call.r);
    case TellQueued => ToldOk(db, call.r.id, Queued, 0, o);
    case _ => assert CallDb(db, call, o).requests == db.requests && CallDb(db, call, o).status == db.status;
  }

  lemma CreatedOk(db: Db, r: Request)
    requires r.status == Queued
    ensures OnlyStatuses(db, Created(db, r))
  {
  }

  lemma RefineDbOk(db: Db, f: Refinement, o: Outcome)
    ensures OnlyStatuses(db, RefineDb(db, f, o))
  {
  }

  lemma StatusesKeepReady(db: Db, db': Db, g: Generating)
    requires ReadyInv(db, g) && OnlyStatuses(db, db')
    ensures ReadyInv(db', g)
  {
    hide IdeasOk, StatusesOk, WorksOk, AnnouncedOk;
  }

  lemma RunDbOk(db: Db, g: Generating, run: nat, o: Outcome)
    requires run in g.works && g.works[run].pc != Save && ReadyInv(db, g)
    ensures OnlyStatuses(db, RunDb(db, g, run, o))
  {
    var id := g.works[run].req.id;
    assert WorkOk(db.ideas, g.moderated, run, g.works[run]);
    hide ReadyInv, StatusesOk, Told, Noted, OnlyStatuses;
    match g.works[run].pc
    case TellRunning(p) => ToldOk(db, id, Running, p, o);
    case NoteRunning(p) => ToldOk(db, id, Running, p, o);
    case TellReady => ToldOk(db, id, Ready, 100, o);
    case NoteReady => ToldOk(db, id, Ready, 100, o);
    case TellFailed => ToldOk(db, id, Failed, 0, o);
    case NoteFailed => ToldOk(db, id, Failed, 0, o);
    case _ => Unchanged(db);
  }

  lemma Unchanged(db: Db)
    ensures OnlyStatuses(db, db)
  {
  }

  // ---- A run's own step ----

  lemma WorkMoves(ideas: Lists, moderated: Verdicts, works: map<nat, Work>, run: nat, works': map<nat, Work>)
    requires WorksOk(ideas, moderated, works)
    requires run in works' ==> WorkOk(ideas, moderated, run, works'[run])
    requires forall r :: r in works' && r != run ==> r in works && works'[r] == works[r]
    ensures WorksOk(ideas, moderated, works')
  {
    hide WorkOk;
    forall r | r in works'
      ensures WorkOk(ideas, moderated, r, works'[r])
    {
      if r != run { assert WorkOk(ideas, moderated, r, works[r]); }
    }
  }

  lemma StepOther(db: Db, g: Generating, run: nat, o: Outcome)
    requires ReadyInv(db, g) && run in g.works && g.works[run].pc != Moderate && g.works[run].pc != Save
    ensures WorksOk(db.ideas, g.moderated, RunStepped(g, run, o).works)
    ensures RunStepped(g, run, o).moderated == g.moderated && RunStepped(g, run, o).savedBy == g.savedBy
    ensures RunStepped(g, run, o).announced ==
            if g.works[run].pc == Announce && o.Writes()
            then g.announced + [IdeasReady(g.works[run].req.id, g.works[run].req.userId, |Result(g, run)|)]
            else g.announced
  {
    var work, works' := g.works[run], RunStepped(g, run, o).works;
    assert WorkOk(db.ideas, g.moderated, run, work);
    WorksAfter(g, run, o);
    hide Result, NextPc, RunStepped, WorksOk, IdeasOk, StatusesOk, AnnouncedOk, WorkOk;
    if run in works' {
      NextOk(db.ideas, g.moderated, run, work, o, works'[run].candidates);
    }
    WorkMoves(db.ideas, g.moderated, g.works, run, works');
  }

  lemma WorksAfter(g: Generating, run: nat, o: Outcome)
    requires run in g.works && g.works[run].pc != Moderate && g.works[run].pc != Save
    ensures var g', next := RunStepped(g, run, o), NextPc(g.works[run], o);
      && (if next.None? then g'.works == g.works - {run}
          else run in g'.works && g'.works == g.works[run := g'.works[run]]
               && g'.works[run] == Work(g.works[run].req, next.value, g'.works[run].candidates))
      && g'.moderated == g.moderated && g'.savedBy == g.savedBy
      && g'.announced ==
         if g.works[run].pc == Announce && o.Writes()
         then g.announced + [IdeasReady(g.works[run].req.id, g.works[run].req.userId, |Result(g, run)|)]
         else g.announced
  {
    hide Result;
  }

  lemma NextOk(ideas: Lists, moderated: Verdicts, run: nat, work: Work, o: Outcome, candidates: seq<Candidate>)
    requires WorkOk(ideas, moderated, run, work) && work.pc != Moderate && work.pc != Save && NextPc(work, o).Some?
    ensures WorkOk(ideas, moderated, run, Work(work.req, NextPc(work, o).value, candidates))
  {
  }

  lemma StepAnnounce(db: Db, g: Generating, run: nat, e: IdeasReady)
    requires ReadyInv(db, g) && run in g.works && g.works[run].pc == Announce
    requires e.requestId == g.works[run].req.id && e.count == |Result(g, run)|
    ensures AnnouncedOk(g.moderated, g.announced + [e])
  {
    assert WorkOk(db.ideas, g.moderated, run, g.works[run]);
    assert Counts(g.moderated[run], e);
    assert Backed(g.moderated, e);
  }

  /** More moderated candidates, of a run that had none, leave every other run's as they were. */
  lemma MoreModerated(db: Db, g: Generating, run: nat, m: Moderated)
    requires ReadyInv(db, g) && run !in g.moderated
    ensures IdeasOk(db.ideas, g.moderated[run := m], g.savedBy) && AnnouncedOk(g.moderated[run := m], g.announced)
    ensures WorksOk(db.ideas, g.moderated[run := m], g.works - {run})
  {
    var moderated := g.moderated[run := m];
    forall id | id in db.ideas
      ensures Evident(db.ideas, moderated, g.savedBy, id)
    {
      assert Evident(db.ideas, g.moderated, g.savedBy, id);
    }
    forall r | r in g.works - {run}
      ensures WorkOk(db.ideas, moderated, r, g.works[r])
    {
      assert WorkOk(db.ideas, g.moderated, r, g.works[r]);
    }
    StillAnnounced(g.moderated, g.announced, run, m);
  }

  lemma StillAnnounced(moderated: Verdicts, announced: seq<IdeasReady>, run: nat, m: Moderated)
    requires AnnouncedOk(moderated, announced) && run !in moderated
    ensures AnnouncedOk(moderated[run := m], announced)
  {
    forall e | e in announced
      ensures Backed(moderated[run := m], e)
    {
      var r :| r in moderated && Counts(moderated[r], e);
      assert Counts(moderated[run := m][r], e);
    }
  }

  lemma StepModerate(db: Db, g: Generating, run: nat, o: Outcome)
    requires ReadyInv(db, g) && run in g.works && g.works[run].pc == Moderate
    requires |o.verdicts| == |g.works[run].candidates|
    ensures ReadyInv(db, RunStepped(g, run, o))
  {
    var g', work := RunStepped(g, run, o), g.works[run];
    var m := Moderated(work.req.id, work.candidates, o.verdicts);
    assert WorkOk(db.ideas, g.moderated, run, work);
    MoreModerated(db, g, run, m);
    StampedKeepsLength(work.req.id, Kept(work.candidates, o.verdicts));
    assert WorkOk(db.ideas, g'.moderated, run, g'.works[run]);
    hide IdeasOk, AnnouncedOk, StatusesOk, WorksOk, Kept, Stamped, WorkOk;
    WorkMoves(db.ideas, g'.moderated, g.works - {run}, run, g'.works);
  }

  lemma StampedKeepsLength(id: string, kept: seq<Candidate>)
    ensures |Stamped(id, kept)| == |kept|
  {
  }

  /** More ideas, saved by a run that moderated them. */
  lemma MoreIdeas(db: Db, g: Generating, run: nat, id: string)
    requires ReadyInv(db, g) && run in g.moderated && g.moderated[run].Valid() && g.moderated[run].requestId == id
    requires g.moderated[run].Ideas() != []
    ensures var ideas := db.ideas[id := g.moderated[run].Ideas()];
      && IdeasOk(ideas, g.moderated, g.savedBy[id := run])
      && WorksOk(ideas, g.moderated, g.works)
      && StatusesOk(db.(ideas := ideas))
  {
    var ideas := db.ideas[id := g.moderated[run].Ideas()];
    forall x | x in ideas
      ensures Evident(ideas, g.moderated, g.savedBy[id := run], x)
    {
      if x in db.ideas { assert Evident(db.ideas, g.moderated, g.savedBy, x); }
    }
    forall r | r in g.works
      ensures WorkOk(ideas, g.moderated, r, g.works[r])
    {
      assert WorkOk(db.ideas, g.moderated, r, g.works[r]);
    }
  }

  lemma StepSave(db: Db, g: Generating, run: nat, o: Outcome)
    requires ReadyInv(db, g) && run in g.works && g.works[run].pc == Save
    ensures ReadyInv(RunDb(db, g, run, o), RunStepped(g, run, o))
  {
    var db', g' := RunDb(db, g, run, o), RunStepped(g, run, o);
    assert WorkOk(db.ideas, g.moderated, run, g.works[run]);
    MoreIdeas(db, g, run, g.works[run].req.id);
    assert run in g'.works ==> WorkOk(db'.ideas, g'.moderated, run, g'.works[run]);
    hide IdeasOk, StatusesOk, WorksOk, AnnouncedOk, WorkOk;
    WorkMoves(db'.ideas, g.moderated, g.works, run, g'.works);
  }

  lemma ReadyRunStep(db: Db, g: Generating, run: nat, o: Outcome)
    requires ReadyInv(db, g) && run in g.works
    requires g.works[run].pc == Moderate ==> |o.verdicts| == |g.works[run].candidates|
    ensures ReadyInv(RunDb(db, g, run, o), RunStepped(g, run, o))
  {
    hide RunStepped, OnlyStatuses, RunDb, IdeasOk, StatusesOk, WorksOk, AnnouncedOk, Result;
    if g.works[run].pc == Save {
      StepSave(db, g, run, o);
    } else {
      if g.works[run].pc == Moderate {
        StepModerate(db, g, run, o);
      } else {
        StepOther(db, g, run, o);
        var work := g.works[run];
        if work.pc == Announce {
          StepAnnounce(db, g, run, IdeasReady(work.req.id, work.req.userId, |Result(g, run)|));
        }
      }
      RunDbOk(db, g, run, o);
      StatusesKeepReady(db, RunDb(db, g, run, o), RunStepped(g, run, o));
    }
  }

  // ---- Runs ----

  lemma NewRun(db: Db, g: Generating, run: nat, req: Request)
    requires ReadyInv(db, g) && run !in g.works && run !in g.moderated
    ensures ReadyInv(db, g.(works := g.works[run := Work(req, TellRunning(10), [])]))
  {
    WorkMoves(db.ideas, g.moderated, g.works, run, g.works[run := Work(req, TellRunning(10), [])]);
  }

  lemma LostRun(db: Db, g: Generating, run: nat)
    requires ReadyInv(db, g)
    ensures ReadyInv(db, g.(works := g.works - {run}))
  {
    WorkMoves(db.ideas, g.moderated, g.works, run, g.works - {run});
  }

  lemma ReadyStep(w: World, a: Action)
    requires Enabled(w, a) && ReadyInv(w.db, w.making) && IdemInv(w.db, w.asking)
    ensures ReadyInv(Apply(w, a).db, Apply(w, a).making)
  {
    if a.StepCall? { assert CallOk(w.db.requests, w.asking.keyOf, w.asking.jobs, w.asking.calls[a.c]); }
    hide ReadyInv, IdemInv, OnlyStatuses, CallDb, CallStepped, RunDb, RunStepped, RefineDb, RefineStepped;
    match a
    case StepCall(c, o) =>
      CallDbOk(w.db, w.asking.calls[c], o);
      StatusesKeepReady(w.db, CallDb(w.db, w.asking.calls[c], o), w.making);
    case StepRefine(c, o) =>
      RefineDbOk(w.db, w.refining.calls[c], o);
      StatusesKeepReady(w.db, RefineDb(w.db, w.refining.calls[c], o), w.making);
    case BeginRun(run, id) => if id in w.db.requests { NewRun(w.db, w.making, run, w.db.requests[id]); }
    case StepRun(run, o) => ReadyRunStep(w.db, w.making, run, o);
    case CrashRun(run) => LostRun(w.db, w.making, run);
    case StatusExpires(id) => ExpiryOk(w, a);
    case SlotExpires(key) => ExpiryOk(w, a);
    case BeginCall(_, _) =>
    case BeginRefine(_, _, _) =>
    case CrashCall(_) =>
    case CrashRefine(_) =>
  }

  lemma ExpiryOk(w: World, a: Action)
    requires (a.SlotExpires? || a.StatusExpires?) && ReadyInv(w.db, w.making)
    ensures ReadyInv(Apply(w, a).db, w.making)
  {
    StatusesKeepReady(w.db, Apply(w, a).db, w.making);
  }

  lemma {:induction false} ReadyRun(w: World, acts: seq<Action>, end: World)
    requires Run(w, acts, end) && ReadyInv(w.db, w.making) && IdemInv(w.db, w.asking)
    ensures ReadyInv(end.db, end.making)
    decreases |acts|
  {
    hide Apply, Enabled, IdemInv, ReadyInv;
    if acts != [] {
      IdemStep(w, acts[0]);
      ReadyStep(w, acts[0]);
      ReadyRun(Apply(w, acts[0]), acts[1..], end);
    }
  }

  /** In every interleaving of requests, refinements and any number of worker runs: where the stored or the cached
      status of a request is ready its idea list is not empty; and every idea list is exactly the candidates that one
      run of that request kept, those with a title that Moderate approved in that run, ranked 1..n in their order. */
  lemma ReadyMeansModeratedIdeas(acts: seq<Action>, w: World, id: string)
    requires Run(START, acts, w)
    ensures id in w.db.requests && w.db.requests[id].status == Ready ==> id in w.db.ideas
    ensures id in w.db.status && w.db.status[id].status == Ready ==> id in w.db.ideas
    ensures id in w.db.ideas ==>
              && id in w.making.savedBy && w.making.savedBy[id] in w.making.moderated && w.db.ideas[id] != []
              && var m := w.making.moderated[w.making.savedBy[id]];
                 && m.requestId == id && m.Valid()
                 && exists from :: RanksTheSurvivors(w.db.ideas[id], m, from)
  {
    assert ReadyInv(START.db, START.making);
    ReadyRun(START, acts, w);
    hide Run, IdemInv, WorksOk, AnnouncedOk, RanksTheSurvivors;
    if id in w.db.ideas {
      assert Evident(w.db.ideas, w.making.moderated, w.making.savedBy, id);
      var m := w.making.moderated[w.making.savedBy[id]];
      var from := RankedSurvivors(m);
    }
  }

  lemma RankedSurvivors(m: Moderated) returns (from: seq<nat>)
    requires m.Valid()
    ensures RanksTheSurvivors(m.Ideas(), m, from)
  {
    from := KeptAreTheSurvivors(m.candidates, m.verdicts);
  }

  /** The ideas are the surviving candidates, each once and in order, ranked from 1. */
  ghost predicate RanksTheSurvivors(ideas: seq<Idea>, m: Moderated, from: seq<nat>)
    requires m.Valid()
  {
    && |ideas| == |from|
    && (forall k :: 0 <= k < |from| ==>
          && Survives(m.candidates, m.verdicts, from[k])
          && ideas[k] == Idea(m.requestId, m.candidates[from[k]], k + 1, Approved))
    && (forall j, k :: 0 <= j < k < |from| ==> from[j] < from[k])
    && (forall i: nat :: Survives(m.candidates, m.verdicts, i) ==> i in from)
  }

  /** Every announced count is the number of ideas that some run of that request kept, and at least one. */
  lemma AnnouncementsAreTrue(acts: seq<Action>, w: World, e: IdeasReady) returns (run: nat)
    requires Run(START, acts, w) && e in w.making.announced
    ensures run in w.making.moderated && w.making.moderated[run].requestId == e.requestId
    ensures |w.making.moderated[run].Ideas()| == e.count > 0
  {
    assert ReadyInv(START.db, START.making);
    ReadyRun(START, acts, w);
    assert Backed(w.making.moderated, e);
    run :| run in w.making.moderated && Counts(w.making.moderated[run], e);
  }
}
