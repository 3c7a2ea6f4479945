/** Generation requests and their ideas: the reference store, the request path on it, and the pipeline that moderates,
    ranks and saves. The model, the publisher and the response cache are oracles. */
module Generation {
  import opened Common

  datatype Status = Queued | Running | Ready | Failed

  datatype StatusInfo = StatusInfo(status: Status, progress: int)

  datatype Inputs = Inputs(holidayId: string, budgetBand: string, preferencesText: string, pollId: string, opus: bool)

  datatype Request = Request(id: string, userId: string, inputs: Inputs, key: string, status: Status,
                             refinement: string)

  datatype Moderation = Approved | Rejected | Pending

  datatype Candidate = Candidate(title: string, whyItFits: string, roughCost: string, howTo: string)

  datatype Idea = Idea(requestId: string, content: Candidate, rank: int, moderation: Moderation)

  // ---- The store ----

  datatype Db = Db(
    requests: map<string, Request>,
    byKey: map<string, string>,
    ideas: map<string, seq<Idea>>,
    status: map<string, StatusInfo>,
    slots: map<string, string>)

  const EMPTY := Db(map[], map[], map[], map[], map[])

  function Created(db: Db, r: Request): Db {
    if r.key in db.byKey then db
    else db.(requests := db.requests[r.id := r], byKey := db.byKey[r.key := r.id])
  }

  function StatusSet(db: Db, id: string, s: Status): Db {
    if id in db.requests then db.(requests := db.requests[id := db.requests[id].(status := s)]) else db
  }

  function RefinementMarked(db: Db, id: string, refinement: string): Db {
    if id in db.requests then
      db.(requests := db.requests[id := db.requests[id].(refinement := refinement, status := Queued)])
    else db
  }

  function SlotSet(db: Db, key: string, id: string): Db {
    if key in db.slots then db else db.(slots := db.slots[key := id])
  }

  function Lookup(db: Db, id: string): Option<Request> {
    if id in db.requests then Some(db.requests[id]) else None
  }

  function LookupByKey(db: Db, key: string): Option<Request> {
    if key in db.byKey then Lookup(db, db.byKey[key]) else None
  }

  class Store {
    var requests: map<string, Request>
    var byKey: map<string, string>
    var ideas: map<string, seq<Idea>>
    var status: map<string, StatusInfo>
    var slots: map<string, string>

    ghost function View(): Db
      reads this
    {
      Db(requests, byKey, ideas, status, slots)
    }

    /** Keys and stored requests name each other, and a slot that names a stored request names its key's. */
    ghost predicate Valid()
      reads this
    {
      && (forall key :: key in byKey ==> byKey[key] in requests && requests[byKey[key]].key == key)
      && (forall id :: id in requests ==>
            id != "" && requests[id].id == id && requests[id].key in byKey && byKey[requests[id].key] == id)
      && (forall key :: key in slots && slots[key] in requests ==> requests[slots[key]].key == key)
    }

    /** An id drawn for this key and used for no other. */
    ghost predicate IsDrawnFor(id: string, key: string)
      reads this
    {
      id != "" && id !in requests && forall k :: k in slots && slots[k] == id ==> k == key
    }

    constructor ()
      ensures Valid() && View() == EMPTY
    {
      requests, byKey, ideas, status, slots := map[], map[], map[], map[], map[];
    }

    method CreateRequest(r: Request) returns (duplicate: bool)
      requires Valid() && IsDrawnFor(r.id, r.key)
      modifies this`requests, this`byKey
      ensures Valid() && View() == Created(old(View()), r)
      ensures duplicate <==> r.key in old(byKey)
      ensures duplicate ==> requests == old(requests) && byKey == old(byKey)
      ensures !duplicate ==> requests == old(requests)[r.id := r] && byKey == old(byKey)[r.key := r.id]
    {
      if r.key in byKey { return true; }
      requests := requests[r.id := r];
      byKey := byKey[r.key := r.id];
      return false;
    }

    method GetRequest(id: string) returns (r: Option<Request>)
      ensures r == Lookup(View(), id)
      ensures r == if id in requests then Some(requests[id]) else None
    {
      return if id in requests then Some(requests[id]) else None;
    }

    method GetRequestByIdempotencyKey(key: string) returns (r: Option<Request>)
      requires Valid()
      ensures r == LookupByKey(View(), key)
      ensures r.Some? <==> exists id :: id in requests && requests[id].key == key
      ensures r.Some? ==> r.value.id in requests && requests[r.value.id] == r.value && r.value.key == key
    {
      assert forall id :: id in requests && requests[id].key == key ==> byKey[key] == id;
      return if key in byKey then Some(requests[byKey[key]]) else None;
    }

    method SetRequestStatus(id: string, s: Status) returns (found: bool)
      requires Valid()
      modifies this`requests
      ensures Valid() && View() == StatusSet(old(View()), id, s)
      ensures found <==> id in old(requests)
      ensures requests == if found then old(requests)[id := old(requests)[id].(status := s)] else old(requests)
    {
      if id !in requests { return false; }
      requests := requests[id := requests[id].(status := s)];
      return true;
    }

    method MarkRefinement(id: string, refinement: string) returns (found: bool)
      requires Valid()
      modifies this`requests
      ensures Valid() && View() == RefinementMarked(old(View()), id, refinement)
      ensures found <==> id in old(requests)
      ensures requests == if found then old(requests)[id := old(requests)[id].(refinement := refinement,
                                                                               status := Queued)]
                          else old(requests)
    {
      if id !in requests { return false; }
      requests := requests[id := requests[id].(refinement := refinement, status := Queued)];
      return true;
    }

    method SaveIdeas(id: string, list: seq<Idea>)
      modifies this`ideas
      ensures ideas == old(ideas)[id := list]
    {
      ideas := ideas[id := list];
    }

    method SetStatus(id: string, info: StatusInfo)
      modifies this`status
      ensures status == old(status)[id := info]
    {
      status := status[id := info];
    }

    method SetIdempotencyIfAbsent(key: string, id: string) returns (stored: bool, existing: string)
      requires Valid() && IsDrawnFor(id, key)
      modifies this`slots
      ensures Valid() && IsDrawnFor(id, key) && View() == SlotSet(old(View()), key, id)
      ensures (stored <==> key !in old(slots)) && key in slots && existing == slots[key]
      ensures slots == if stored then old(slots)[key := id] else old(slots)
    {
      if key in slots { return false, slots[key]; }
      slots := slots[key := id];
      return true, id;
    }
  }

  // ---- The request path ----

  datatype Job = Job(requestId: string, refining: bool)

  datatype Answer = Accepted(requestId: string, status: Status) | InvalidArgument | NotFound | Internal

  predicate WellFormed(r: Request) {
    r.userId != "" && r.inputs.holidayId != "" && r.inputs.budgetBand != "" && r.key != ""
  }

  class Server {
    const store: Store
    var jobs: seq<Job>

    constructor (store: Store)
      ensures this.store == store && jobs == []
    {
      this.store := store;
      jobs := [];
    }

    /** `r.id` is the id drawn for this call and `published` whether the publisher takes the job. */
    method RequestGeneration(r: Request, published: bool) returns (a: Answer)
      requires store.Valid() && store.IsDrawnFor(r.id, r.key) && r.status == Queued && r.refinement == ""
      modifies this, store
      ensures store.Valid()
      // malformed: nothing happens
      ensures !WellFormed(r) ==> a == InvalidArgument && jobs == old(jobs) && store.View() == old(store.View())
      // a key already stored: its own request again, and no job
      ensures WellFormed(r) && r.key in old(store.byKey) ==>
                && jobs == old(jobs) && store.requests == old(store.requests) && store.byKey == old(store.byKey)
                && a == Accepted(old(store.byKey[r.key]), old(store.requests[store.byKey[r.key]].status))
      // a key only another call holds: that call's id, and no job
      ensures WellFormed(r) && r.key !in old(store.byKey) && r.key in old(store.slots) ==>
                a == Accepted(old(store.slots[r.key]), Queued) && jobs == old(jobs) && store.View() == old(store.View())
      // a new key: stored, queued and enqueued once
      ensures WellFormed(r) && r.key !in old(store.byKey) && r.key !in old(store.slots) ==>
                && store.View() == old(Db(store.requests[r.id := r], store.byKey[r.key := r.id], store.ideas,
                                          store.status[r.id := StatusInfo(Queued, 0)], store.slots[r.key := r.id]))
                && (published ==> jobs == old(jobs) + [Job(r.id, false)] && a == Accepted(r.id, Queued))
                && (!published ==> jobs == old(jobs) && a == Internal)
    {
      if r.userId == "" || r.inputs.holidayId == "" || r.inputs.budgetBand == "" || r.key == "" {
        return InvalidArgument;
      }
      var stored, existing := store.SetIdempotencyIfAbsent(r.key, r.id);
      if !stored {
        a := ExistingResponse(existing, r.key);
        return;
      }
      var duplicate := store.CreateRequest(r);
      if duplicate {
        var other := store.GetRequestByIdempotencyKey(r.key);
        return if other.Some? then Accepted(other.value.id, other.value.status) else Internal;
      }
      store.SetStatus(r.id, StatusInfo(Queued, 0));
      if !published { return Internal; }
      jobs := jobs + [Job(r.id, false)];
      return Accepted(r.id, Queued);
    }

    method ExistingResponse(existing: string, key: string) returns (a: Answer)
      requires store.Valid()
      ensures a == if existing in store.requests then Accepted(existing, store.requests[existing].status)
                   else if key in store.byKey then
                     Accepted(store.byKey[key], store.requests[store.byKey[key]].status)
                   else Accepted(existing, Queued)
    {
      if existing != "" {
        var r := store.GetRequest(existing);
        if r.Some? { return Accepted(r.value.id, r.value.status); }
      }
      var r := store.GetRequestByIdempotencyKey(key);
      if r.Some? { return Accepted(r.value.id, r.value.status); }
      return Accepted(existing, Queued);
    }

    method Refine(id: string, refinement: string, published: bool) returns (a: Answer)
      requires store.Valid()
      modifies this, store
      ensures store.Valid()
      ensures id == "" || refinement == "" ==>
                a == InvalidArgument && jobs == old(jobs) && store.View() == old(store.View())
      ensures id != "" && refinement != "" && id !in old(store.requests) ==>
                a == NotFound && jobs == old(jobs) && store.View() == old(store.View())
      ensures id != "" && refinement != "" && id in old(store.requests) ==>
                && store.requests == old(store.requests[id := store.requests[id].(refinement := refinement,
                                                                                  status := Queued)])
                && store.status == old(store.status)[id := StatusInfo(Queued, 0)]
                && store.View() == old(store.View()).(requests := store.requests, status := store.status)
                && (published ==> jobs == old(jobs) + [Job(id, true)] && a == Accepted(id, Queued))
                && (!published ==> jobs == old(jobs) && a == Internal)
    {
      if id == "" || refinement == "" { return InvalidArgument; }
      var r := store.GetRequest(id);
      if r.None? { return NotFound; }
      var found := store.MarkRefinement(id, refinement);
      store.SetStatus(id, StatusInfo(Queued, 0));
      if !published { return Internal; }
      jobs := jobs + [Job(id, true)];
      return Accepted(id, Queued);
    }
  }

  // ---- Moderate, validate, rank ----

  datatype Verdict = Approve | Reject | Fail

  /** The candidates with a title that Moderate approved, in order. */
  function Kept(candidates: seq<Candidate>, verdicts: seq<Verdict>): seq<Candidate>
    requires |verdicts| == |candidates|
  {
    if candidates == [] then []
    else
      var n := |candidates| - 1;
      Kept(candidates[..n], verdicts[..n]) +
      if !IsBlank(candidates[n].title) && verdicts[n] == Approve then [candidates[n]] else []
  }

  /** The ideas of a request: ranked from 1 in the order given. */
  function Stamped(id: string, kept: seq<Candidate>): (ideas: seq<Idea>) {
    seq(|kept|, i requires 0 <= i < |kept| => Idea(id, kept[i], i + 1, Approved))
  }

  /** `verdicts[i]` is how Moderate would answer for candidate i. */
  method ModerateValidateRank(id: string, candidates: seq<Candidate>, verdicts: seq<Verdict>) returns (out: seq<Idea>)
    requires |verdicts| == |candidates|
    ensures out == Stamped(id, Kept(candidates, verdicts)) && |out| == |Kept(candidates, verdicts)|
    ensures forall i :: 0 <= i < |out| ==> out[i] == Idea(id, Kept(candidates, verdicts)[i], i + 1, Approved)
  {
    out := [];
    var rank := 1;
    for i := 0 to |candidates|
      invariant rank == |out| + 1
      invariant out == Stamped(id, Kept(candidates[..i], verdicts[..i]))
    {
      var c := candidates[i];
      assert candidates[..i + 1][..i] == candidates[..i] && verdicts[..i + 1][..i] == verdicts[..i];
      if IsBlank(c.title) { continue; }
      if verdicts[i] == Fail { continue; }
      if verdicts[i] != Approve { continue; }
      out := out + [Idea(id, c, rank, Approved)];
      rank := rank + 1;
    }
    assert candidates[..|candidates|] == candidates && verdicts[..|verdicts|] == verdicts;
  }

  ghost predicate Survives(candidates: seq<Candidate>, verdicts: seq<Verdict>, i: nat)
    requires |verdicts| == |candidates|
  {
    i < |candidates| && !IsBlank(candidates[i].title) && verdicts[i] == Approve
  }

  /** `kept` are exactly the surviving candidates, in order: `from` gives the place each came from. */
  ghost predicate Selects(candidates: seq<Candidate>, verdicts: seq<Verdict>, kept: seq<Candidate>, from: seq<nat>)
    requires |verdicts| == |candidates|
  {
    && |from| == |kept|
    && (forall k :: 0 <= k < |from| ==> Survives(candidates, verdicts, from[k]) && kept[k] == candidates[from[k]])
    && (forall j, k :: 0 <= j < k < |from| ==> from[j] < from[k])
    && (forall i: nat :: Survives(candidates, verdicts, i) ==> i in from)
  }

  lemma SelectsMore(candidates: seq<Candidate>, verdicts: seq<Verdict>, kept: seq<Candidate>, from: seq<nat>)
    requires |verdicts| == |candidates| > 0
    requires Selects(candidates[..|candidates| - 1], verdicts[..|candidates| - 1], kept, from)
    ensures var n := |candidates| - 1;
      if Survives(candidates, verdicts, n) then Selects(candidates, verdicts, kept + [candidates[n]], from + [n])
      else Selects(candidates, verdicts, kept, from)
  {
  }

  /** The ideas are exactly the survivors, in candidate order. */
  lemma {:induction false} KeptAreTheSurvivors(candidates: seq<Candidate>, verdicts: seq<Verdict>)
      returns (from: seq<nat>)
    requires |verdicts| == |candidates|
    ensures Selects(candidates, verdicts, Kept(candidates, verdicts), from)
  {
    if candidates == [] {
      from := [];
    } else {
      hide Selects, IsBlank;
      var n := |candidates| - 1;
      from := KeptAreTheSurvivors(candidates[..n], verdicts[..n]);
      SelectsMore(candidates, verdicts, Kept(candidates[..n], verdicts[..n]), from);
      if Survives(candidates, verdicts, n) { from := from + [n]; }
    }
  }

  // ---- The pipeline ----

  datatype IdeasReady = IdeasReady(requestId: string, userId: string, count: nat)

  /** Both statuses of a request, the stored and the cached one. */
  function Marked(db: Db, id: string, s: Status, progress: int): Db {
    StatusSet(db, id, s).(status := db.status[id := StatusInfo(s, progress)])
  }

  lemma LastMarkStays(db: Db, id: string, s: Status, p: int, t: Status, q: int)
    ensures Marked(Marked(db, id, s, p), id, t, q) == Marked(db, id, t, q)
  {
    var once, twice := Marked(db, id, t, q), Marked(Marked(db, id, s, p), id, t, q);
    assert once.requests == twice.requests && once.status == twice.status;
  }

  class Pipeline {
    const store: Store
    var published: seq<IdeasReady>

    constructor (store: Store)
      ensures this.store == store && published == []
    {
      this.store := store;
      published := [];
    }

    method SetStatus(id: string, s: Status, progress: int)
      requires store.Valid()
      modifies store`status, store`requests
      ensures store.Valid()
      ensures store.View() == if s == Running then Marked(old(store.View()), id, s, progress)
                              else old(store.View()).(status := old(store.status)[id := StatusInfo(s, progress)])
      ensures store.status == old(store.status)[id := StatusInfo(s, progress)]
      ensures store.requests == if s == Running && id in old(store.requests)
                                then old(store.requests[id := store.requests[id].(status := s)])
                                else old(store.requests)
    {
      store.SetStatus(id, StatusInfo(s, progress));
      if s == Running {
        var found := store.SetRequestStatus(id, s);
      }
    }

    method FailRun(id: string)
      requires store.Valid()
      modifies store`status, store`requests
      ensures store.Valid() && store.View() == Marked(old(store.View()), id, Failed, 0)
      ensures store.status == old(store.status)[id := StatusInfo(Failed, 0)]
      ensures store.requests == if id in old(store.requests)
                                then old(store.requests[id := store.requests[id].(status := Failed)])
                                else old(store.requests)
    {
      SetStatus(id, Failed, 0);
      var found := store.SetRequestStatus(id, Failed);
    }

    /** `cached` is the cached response, `generated` what the model answers on a miss and `verdicts` what Moderate says
        of the candidates used; `taken` is whether the publisher takes the event. */
    method Run(id: string, cached: seq<Candidate>, generated: Option<seq<Candidate>>, verdicts: seq<Verdict>,
               taken: bool)
        returns (ok: bool)
      requires store.Valid()
      requires cached != [] ==> |verdicts| == |cached|
      requires cached == [] && generated.Some? ==> |verdicts| == |generated.value|
      modifies this, store`status, store`requests, store`ideas
      ensures store.Valid()
      ensures id !in old(store.requests) ==> !ok && store.View() == old(store.View()) && published == old(published)
      // nothing to offer: both statuses say failed, the ideas stay, nothing is announced
      ensures var candidates := if cached != [] then Some(cached) else generated;
        id in old(store.requests) && (candidates.None? || Kept(candidates.value, verdicts) == []) ==>
          ok && store.View() == Marked(old(store.View()), id, Failed, 0) && published == old(published)
      // the ideas are the surviving candidates, both statuses say ready, and their number is announced
      ensures var candidates := if cached != [] then Some(cached) else generated;
        id in old(store.requests) && candidates.Some? && Kept(candidates.value, verdicts) != [] ==>
          var kept := Kept(candidates.value, verdicts);
          && store.View() == Marked(old(store.View()), id, Ready, 100)
                             .(ideas := old(store.ideas)[id := Stamped(id, kept)])
          && ok == taken
          && published == if taken then old(published) + [IdeasReady(id, old(store.requests[id]).userId, |kept|)]
                          else old(published)
    {
      hide Kept, Stamped, Marked;
      var loaded := store.GetRequest(id);
      if loaded.None? { return false; }
      ghost var before := store.View();
      SetStatus(id, Running, 10);
      var candidates := cached;
      if |cached| == 0 {
        SetStatus(id, Running, 40);
        LastMarkStays(before, id, Running, 10, Running, 40);
        if generated.None? {
          FailRun(id);
          LastMarkStays(before, id, Running, 40, Failed, 0);
          return true;
        }
        candidates := generated.value;
      }
      ghost var progress := if |cached| == 0 then 40 else 10;
      SetStatus(id, Running, 70);
      LastMarkStays(before, id, Running, progress, Running, 70);
      KeepsIdeas(before, id, Running, 70);
      ok := Conclude(loaded.value, candidates, verdicts, taken);
      LastMarkStays(before, id, Running, 70, Failed, 0);
      LastMarkStays(before, id, Running, 70, Ready, 100);
    }

    /** Steps 6 to 8 of Run. */
    method Conclude(req: Request, candidates: seq<Candidate>, verdicts: seq<Verdict>, taken: bool) returns (ok: bool)
      requires store.Valid() && req.id in store.requests && |verdicts| == |candidates|
      modifies this, store`status, store`requests, store`ideas
      ensures store.Valid()
      ensures Kept(candidates, verdicts) == [] ==>
                ok && store.View() == Marked(old(store.View()), req.id, Failed, 0) && published == old(published)
      ensures Kept(candidates, verdicts) != [] ==>
                var kept := Kept(candidates, verdicts);
                && store.View() == Marked(old(store.View()), req.id, Ready, 100)
                                   .(ideas := old(store.ideas)[req.id := Stamped(req.id, kept)])
                && ok == taken
                && published == if taken then old(published) + [IdeasReady(req.id, req.userId, |kept|)]
                                else old(published)
    {
      hide Kept, Stamped;
      var list := ModerateValidateRank(req.id, candidates, verdicts);
      if |list| == 0 {
        FailRun(req.id);
        return true;
      }
      store.SaveIdeas(req.id, list);
      SetStatus(req.id, Ready, 100);
      var found := store.SetRequestStatus(req.id, Ready);
      if !found { return false; }
      if !taken { return false; }
      published := published + [IdeasReady(req.id, req.userId, |list|)];
      return true;
    }
  }

  lemma KeepsIdeas(db: Db, id: string, s: Status, progress: int)
    ensures var m := Marked(db, id, s, progress);
      m.ideas == db.ideas && m.byKey == db.byKey && m.slots == db.slots && m.requests.Keys == db.requests.Keys
  {
  }
}
