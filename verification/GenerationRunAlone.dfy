/** The worker's steps against the sequential pipeline, and a refinement's against its sequential method: a run with
    working stores and nothing in between. */
module GenerationRunAlone {
  import opened Common
  import opened Generation
  import opened GenerationRuns
  import opened GenerationIdeas

  /** What a run meets: the cached response, the model's, Moderate's verdicts, and whether its event is taken. */
  datatype Weather = Weather(cached: seq<Candidate>, generated: Option<seq<Candidate>>, verdicts: seq<Verdict>,
                             taken: bool)

  function OutcomeOf(e: Weather, pc: Pc): Outcome {
    match pc
    case ReadCache => Outcome(true, true, e.cached, [])
    case Generate => Outcome(e.generated.Some?, false, if e.generated.Some? then e.generated.value else [], [])
    case Moderate => Outcome(true, true, [], e.verdicts)
    case Announce => Outcome(e.taken, false, [], [])
    case _ => Outcome(true, true, [], [])
  }

  predicate CanStep(g: Generating, run: nat, e: Weather) {
    run in g.works && (g.works[run].pc == Moderate ==> |e.verdicts| == |g.works[run].candidates|)
  }

  /** Up to n steps of one run with working stores and nothing in between. */
  function Alone(db: Db, g: Generating, run: nat, e: Weather, n: nat): (Db, Generating)
    decreases n
  {
    if n == 0 || !CanStep(g, run, e) then (db, g)
    else
      var o := OutcomeOf(e, g.works[run].pc);
      Alone(RunDb(db, g, run, o), RunStepped(g, run, o), run, e, n - 1)
  }

  lemma NextAlone(db: Db, g: Generating, run: nat, e: Weather, n: nat)
    requires CanStep(g, run, e) && n > 0
    ensures var o := OutcomeOf(e, g.works[run].pc);
      Alone(db, g, run, e, n) == Alone(RunDb(db, g, run, o), RunStepped(g, run, o), run, e, n - 1)
  {}

  lemma OverAlone(db: Db, g: Generating, run: nat, e: Weather, n: nat)
    requires run !in g.works
    ensures Alone(db, g, run, e, n) == (db, g)
  {}

  lemma AloneFails(db: Db, g: Generating, run: nat, e: Weather, n: nat)
    requires run in g.works && g.works[run].pc == TellFailed && n >= 2
    ensures Alone(db, g, run, e, n).0 == Marked(db, g.works[run].req.id, Failed, 0)
    ensures Alone(db, g, run, e, n).1.announced == g.announced && run !in Alone(db, g, run, e, n).1.works
  {
    var o := OutcomeOf(e, TellFailed);
    var db1, g1 := RunDb(db, g, run, o), RunStepped(g, run, o);
    NextAlone(db, g, run, e, n);
    NextAlone(db1, g1, run, e, n - 1);
    hide Alone;
    OverAlone(RunDb(db1, g1, run, o), RunStepped(g1, run, o), run, e, n - 2);
  }

  lemma AloneAnnounces(db: Db, g: Generating, run: nat, e: Weather, n: nat)
    requires run in g.works && g.works[run].pc == TellReady && n >= 3
    ensures Alone(db, g, run, e, n).0 == Marked(db, g.works[run].req.id, Ready, 100)
    ensures Alone(db, g, run, e, n).1.announced == g.announced +
            if e.taken then [IdeasReady(g.works[run].req.id, g.works[run].req.userId, |Result(g, run)|)] else []
    ensures run !in Alone(db, g, run, e, n).1.works
  {
    hide Result;
    var o := OutcomeOf(e, TellReady);
    var db1, g1 := RunDb(db, g, run, o), RunStepped(g, run, o);
    var db2, g2 := RunDb(db1, g1, run, o), RunStepped(g1, run, o);
    NextAlone(db, g, run, e, n);
    NextAlone(db1, g1, run, e, n - 1);
    NextAlone(db2, g2, run, e, n - 2);
    hide Alone;
    assert g2.moderated == g.moderated;
    ResultOf(g, g2, run);
    OverAlone(db2, RunStepped(g2, run, OutcomeOf(e, Announce)), run, e, n - 3);
  }

  lemma ResultOf(g: Generating, g': Generating, run: nat)
    requires g'.moderated == g.moderated
    ensures Result(g', run) == Result(g, run)
  {}

  /** From the last running mark on: what Pipeline.Conclude does. */
  lemma AloneConcludes(db: Db, g: Generating, run: nat, e: Weather, n: nat)
    requires run in g.works && g.works[run].pc == Moderate && n >= 5
    requires |e.verdicts| == |g.works[run].candidates|
    ensures var kept, req := Kept(g.works[run].candidates, e.verdicts), g.works[run].req;
            var (db', g') := Alone(db, g, run, e, n);
      && run !in g'.works
      && (kept == [] ==> db' == Marked(db, req.id, Failed, 0) && g'.announced == g.announced)
      && (kept != [] ==>
            && db' == Marked(db, req.id, Ready, 100).(ideas := db.ideas[req.id := Stamped(req.id, kept)])
            && g'.announced == g.announced + if e.taken then [IdeasReady(req.id, req.userId, |kept|)] else [])
  {
    var work := g.works[run];
    var kept := Kept(work.candidates, e.verdicts);
    var g1 := RunStepped(g, run, OutcomeOf(e, Moderate));
    NextAlone(db, g, run, e, n);
    StampedKeepsLength(work.req.id, kept);
    assert Result(g1, run) == Stamped(work.req.id, kept);
    hide Alone, Kept, Stamped, Result;
    if kept == [] {
      AloneFails(db, g1, run, e, n - 1);
    } else {
      var o := OutcomeOf(e, Save);
      var db2, g2 := RunDb(db, g1, run, o), RunStepped(g1, run, o);
      NextAlone(db, g1, run, e, n - 1);
      ResultOf(g1, g2, run);
      AloneAnnounces(db2, g2, run, e, n - 2);
    }
  }

  /** Telling and noting running at some progress leaves one mark. */
  lemma AloneMarks(db: Db, g: Generating, run: nat, e: Weather, n: nat)
    requires run in g.works && g.works[run].pc.TellRunning? && n >= 2
    ensures var work := g.works[run];
            var p := work.pc.progress;
            var next := if p == 10 then ReadCache else if p == 40 then Generate else Moderate;
      Alone(db, g, run, e, n) ==
      Alone(Marked(db, work.req.id, Running, p), g.(works := g.works[run := work.(pc := next)]), run, e, n - 2)
  {
    var work := g.works[run];
    var o := OutcomeOf(e, work.pc);
    var db1, g1 := RunDb(db, g, run, o), RunStepped(g, run, o);
    NextAlone(db, g, run, e, n);
    NextAlone(db1, g1, run, e, n - 1);
    hide Alone;
    var next := if work.pc.progress == 10 then ReadCache else if work.pc.progress == 40 then Generate else Moderate;
    assert RunStepped(g1, run, OutcomeOf(e, g1.works[run].pc)).works == g.works[run := work.(pc := next)];
    assert RunDb(db1, g1, run, OutcomeOf(e, g1.works[run].pc)) == Marked(db, work.req.id, Running, work.pc.progress);
  }

  lemma AloneFrom70(db: Db, g: Generating, run: nat, e: Weather, n: nat)
    requires run in g.works && g.works[run].pc == TellRunning(70) && n >= 7
    requires |e.verdicts| == |g.works[run].candidates|
    ensures var kept, req := Kept(g.works[run].candidates, e.verdicts), g.works[run].req;
            var (db', g') := Alone(db, g, run, e, n);
      && run !in g'.works
      && (kept == [] ==> db' == Marked(db, req.id, Failed, 0) && g'.announced == g.announced)
      && (kept != [] ==>
            && db' == Marked(db, req.id, Ready, 100).(ideas := db.ideas[req.id := Stamped(req.id, kept)])
            && g'.announced == g.announced + if e.taken then [IdeasReady(req.id, req.userId, |kept|)] else [])
  {
    hide Alone, Kept, Stamped, Marked;
    var work := g.works[run];
    AloneMarks(db, g, run, e, n);
    var g' := g.(works := g.works[run := work.(pc := Moderate)]);
    AloneConcludes(Marked(db, work.req.id, Running, 70), g', run, e, n - 2);
    LastMarkStays(db, work.req.id, Running, 70, Failed, 0);
    LastMarkStays(db, work.req.id, Running, 70, Ready, 100);
    KeepsIdeas(db, work.req.id, Running, 70);
  }

  /** The steps are those of the sequential method: a run left alone ends within 13 of them with the store and the
      event that Pipeline.Run promises. */
  lemma AloneIsPipelineRun(db: Db, g: Generating, run: nat, e: Weather)
    requires run in g.works && g.works[run].pc == TellRunning(10)
    requires e.cached != [] ==> |e.verdicts| == |e.cached|
    requires e.cached == [] && e.generated.Some? ==> |e.verdicts| == |e.generated.value|
    ensures var req, used := g.works[run].req, if e.cached != [] then Some(e.cached) else e.generated;
            var (db', g') := Alone(db, g, run, e, 13);
      && run !in g'.works
      && (used.None? || Kept(used.value, e.verdicts) == [] ==>
            db' == Marked(db, req.id, Failed, 0) && g'.announced == g.announced)
      && (used.Some? && Kept(used.value, e.verdicts) != [] ==>
            var kept := Kept(used.value, e.verdicts);
            && db' == Marked(db, req.id, Ready, 100).(ideas := db.ideas[req.id := Stamped(req.id, kept)])
            && g'.announced == g.announced + if e.taken then [IdeasReady(req.id, req.userId, |kept|)] else [])
  {
    hide Alone, Kept, Stamped, Marked;
    var work := g.works[run];
    var id := work.req.id;
    var db1, g1 := Marked(db, id, Running, 10), g.(works := g.works[run := work.(pc := ReadCache)]);
    AloneMarks(db, g, run, e, 13);
    NextAlone(db1, g1, run, e, 11);
    var g2 := RunStepped(g1, run, OutcomeOf(e, ReadCache));
    KeepsIdeas(db, id, Running, 10);
    LastMarkStays(db, id, Running, 10, Failed, 0);
    LastMarkStays(db, id, Running, 10, Ready, 100);
    if e.cached != [] {
      AloneFrom70(db1, g2, run, e, 10);
    } else {
      AloneOnAMiss(db1, g2, run, e);
    }
  }

  lemma AloneOnAMiss(db: Db, g: Generating, run: nat, e: Weather)
    requires run in g.works && g.works[run].pc == TellRunning(40)
    requires e.generated.Some? ==> |e.verdicts| == |e.generated.value|
    ensures var req, used := g.works[run].req, e.generated;
            var (db', g') := Alone(db, g, run, e, 10);
      && run !in g'.works
      && (used.None? || Kept(used.value, e.verdicts) == [] ==>
            db' == Marked(db, req.id, Failed, 0) && g'.announced == g.announced)
      && (used.Some? && Kept(used.value, e.verdicts) != [] ==>
            var kept := Kept(used.value, e.verdicts);
            && db' == Marked(db, req.id, Ready, 100).(ideas := db.ideas[req.id := Stamped(req.id, kept)])
            && g'.announced == g.announced + if e.taken then [IdeasReady(req.id, req.userId, |kept|)] else [])
  {
    hide Alone, Kept, Stamped, Marked;
    var work := g.works[run];
    var id := work.req.id;
    var db1, g1 := Marked(db, id, Running, 40), g.(works := g.works[run := work.(pc := Generate)]);
    AloneMarks(db, g, run, e, 10);
    NextAlone(db1, g1, run, e, 8);
    var g2 := RunStepped(g1, run, OutcomeOf(e, Generate));
    KeepsIdeas(db, id, Running, 40);
    LastMarkStays(db, id, Running, 40, Failed, 0);
    LastMarkStays(db, id, Running, 40, Ready, 100);
    if e.generated.Some? {
      AloneFrom70(db1, g2, run, e, 7);
    } else {
      AloneFails(db1, g2, run, e, 7);
    }
  }

  // ---- Refinements ----

  /** Up to n steps of one refinement with a working store and nothing in between. */
  function RefineAlone(db: Db, q: Refining, c: nat, published: bool, n: nat): (Db, Refining)
    decreases n
  {
    if n == 0 || c !in q.calls then (db, q)
    else
      var o := Outcome(q.calls[c].phase != Requeue || published, false, [], []);
      RefineAlone(RefineDb(db, q.calls[c], o), RefineStepped(db, q, c, o), c, published, n - 1)
  }

  /** The same for Server.Refine: a refinement left alone ends within 4 steps, with the request requeued under its new
      text and one job, or without any change when the request is not stored. */
  lemma AloneIsRefine(db: Db, q: Refining, c: nat, published: bool)
    requires c in q.calls && q.calls[c].phase == Load
    ensures var f, (db', q') := q.calls[c], RefineAlone(db, q, c, published, 4);
      && q'.calls == q.calls - {c}
      && (f.id !in db.requests ==> db' == db && q'.jobs == q.jobs)
      && (f.id in db.requests ==>
            && db' == db.(requests := db.requests[f.id := db.requests[f.id].(refinement := f.text, status := Queued)],
                          status := db.status[f.id := StatusInfo(Queued, 0)])
            && q'.jobs == q.jobs + if published then [f.id] else [])
  {
    var f, ok := q.calls[c], Outcome(true, false, [], []);
    if f.id in db.requests {
      var q1 := RefineStepped(db, q, c, ok);
      var db2, q2 := RefineDb(db, q1.calls[c], ok), RefineStepped(db, q1, c, ok);
      var db3, q3 := RefineDb(db2, q2.calls[c], ok), RefineStepped(db2, q2, c, ok);
      var last := Outcome(published, false, [], []);
      var q4 := RefineStepped(db3, q3, c, last);
      assert RefineAlone(db3, q4, c, published, 0) == (db3, q4);
      assert RefineAlone(db3, q3, c, published, 1) == (db3, q4);
      assert RefineAlone(db2, q2, c, published, 2) == (db3, q4);
      assert RefineAlone(db, q1, c, published, 3) == (db3, q4);
      assert q4.calls == q.calls - {c};
    } else {
      assert RefineAlone(db, RefineStepped(db, q, c, ok), c, published, 3) == (db, RefineStepped(db, q, c, ok));
    }
  }
}
