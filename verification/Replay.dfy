/** The event log against the stage column, for runs without canonicalization. */
module Replay {
  import opened Sql
  import opened Tables
  import opened Actions
  import opened Pipeline
  import Lifecycle
  import C = Canonicalize

  predicate IsStageEvent(e: Event, user: User, job: JobId) { e.kind == StageChange && e.user == user && e.job == job }

  /** The to_value of the last stage_change of a job: what folding its events gives. */
  function LastTo(es: seq<Event>, user: User, job: JobId): Opt<Word> {
    if es == [] then Null
    else if IsStageEvent(es[|es| - 1], user, job) then es[|es| - 1].to
    else LastTo(es[..|es| - 1], user, job)
  }

  /** Some stage_change of the job entered `stage`. */
  predicate Entered(es: seq<Event>, user: User, job: JobId, stage: Word) {
    exists i :: 0 <= i < |es| && IsStageEvent(es[i], user, job) && es[i].to == Val(stage)
  }

  lemma {:induction false} LastToEntered(es: seq<Event>, user: User, job: JobId)
    requires LastTo(es, user, job).Val?
    ensures Entered(es, user, job, LastTo(es, user, job).v)
  {
    var n := |es| - 1;
    if !IsStageEvent(es[n], user, job) {
      LastToEntered(es[..n], user, job);
      EnteredGrows(es[..n], [es[n]], user, job, LastTo(es, user, job).v);
      assert es[..n] + [es[n]] == es;
    }
  }

  lemma EnteredGrows(es: seq<Event>, more: seq<Event>, user: User, job: JobId, stage: Word)
    requires Entered(es, user, job, stage)
    ensures Entered(es + more, user, job, stage)
  {
    var i :| 0 <= i < |es| && IsStageEvent(es[i], user, job) && es[i].to == Val(stage);
    assert (es + more)[i] == es[i];
  }

  lemma LastToAppend(es: seq<Event>, e: Event, user: User, job: JobId)
    ensures LastTo(es + [e], user, job) == if IsStageEvent(e, user, job) then e.to else LastTo(es, user, job)
  {
    assert (es + [e])[..|es|] == es;
  }

  // ---------------------------------------------------------------- the two invariants of the log

  /** Events are about existing rows, and folding a row's events gives its stage. */
  predicate Replays(db: Db) {
    (forall i :: 0 <= i < |db.events| ==> db.events[i].job in db.jobs) &&
    (forall id :: id in db.jobs ==> db.jobs[id].stage == LastTo(db.events, db.jobs[id].user, id) && db.jobs[id].stage != Val(Blank))
  }

  /** A stage that a job left was entered by an earlier event of that job, or is the stand-in `applied`. */
  predicate LeftWasEntered(es: seq<Event>, i: int)
    requires 0 <= i < |es|
  {
    (es[i].kind == StageChange && es[i].from.Val? && es[i].from.v != Applied) ==>
      Entered(es[..i], es[i].user, es[i].job, es[i].from.v)
  }

  predicate Rooted(es: seq<Event>) { forall i :: 0 <= i < |es| ==> LeftWasEntered(es, i) }

  lemma RootedAppend(es: seq<Event>, e: Event)
    requires Rooted(es)
    requires e.kind == StageChange && e.from.Val? && e.from.v != Applied ==> Entered(es, e.user, e.job, e.from.v)
    ensures Rooted(es + [e])
  {
    forall i | 0 <= i < |es + [e]|
      ensures LeftWasEntered(es + [e], i)
    {
      if i < |es| {
        assert LeftWasEntered(es, i);
        assert (es + [e])[..i] == es[..i];
      } else {
        assert (es + [e])[..i] == es;
      }
    }
  }

  /** What is in flight names rows of its own tenant, and stages that were entered. */
  predicate ReadOk(db: Db, r: Read) {
    match r
    case GhostRead(user, item) => Owns(db.jobs, user, item.id) && item.stage == Applied
    case RejectRead(user, id, from) => Owns(db.jobs, user, id) && from != Blank && (from == Applied || Entered(db.events, user, id, from))
    case _ => true
  }

  predicate LogInv(w: World) {
    Replays(w.db) && Rooted(w.db.events) && (forall r :: r in w.inFlight ==> ReadOk(w.db, r))
  }

  // ---------------------------------------------------------------- steps that log

  /** One row moves to `stage` and one event says so. */
  lemma LoggedMove(db: Db, after: Db, id: JobId, e: Event)
    requires Replays(db) && Rooted(db.events) && id in db.jobs && id in after.jobs
    requires after.jobs == db.jobs[id := after.jobs[id]] && after.events == db.events + [e]
    requires after.jobs[id].user == db.jobs[id].user && IsStageEvent(e, db.jobs[id].user, id)
    requires after.jobs[id].stage == e.to && e.to != Val(Blank)
    requires e.from.Null? || e.from.v == Applied || Entered(db.events, e.user, id, e.from.v)
    ensures Replays(after) && Rooted(after.events)
  {
    RootedAppend(db.events, e);
    forall k | k in after.jobs
      ensures after.jobs[k].stage == LastTo(after.events, after.jobs[k].user, k) && after.jobs[k].stage != Val(Blank)
    { LastToAppend(db.events, e, after.jobs[k].user, k); }
  }

  lemma StageWasEntered(db: Db, user: User, id: JobId)
    requires Replays(db) && Owns(db.jobs, user, id)
    ensures db.jobs[id].stage.Null? || (db.jobs[id].stage.v != Blank && Entered(db.events, user, id, db.jobs[id].stage.v))
  {
    if db.jobs[id].stage.Val? { LastToEntered(db.events, user, id); }
  }

  /** The transaction of SetPipelineStage as one row and one event. */
  lemma OneMove(db: Db, user: User, id: JobId, value: Word)
    requires Owns(db.jobs, user, id)
    ensures var after := SetPipelineStage(db, user, id, value);
            var e := StageEvent(user, id, Coalesce(db.jobs[id].stage, Blank), value, db.now);
            id in after.jobs && after.jobs == db.jobs[id := after.jobs[id]] && after.events == db.events + [e] &&
            after.jobs[id].user == user && after.jobs[id].stage == e.to && e.to != Val(Blank) && IsStageEvent(e, user, id)
  {
  }

  lemma StageMoveLogged(db: Db, user: User, id: JobId, value: Word)
    requires Replays(db) && Rooted(db.events)
    ensures Replays(SetPipelineStage(db, user, id, value)) && Rooted(SetPipelineStage(db, user, id, value).events)
  {
    if Owns(db.jobs, user, id) {
      hide SetPipelineStage, Replays, Rooted, Entered;
      StageWasEntered(db, user, id);
      OneMove(db, user, id, value);
      LoggedMove(db, SetPipelineStage(db, user, id, value), id, StageEvent(user, id, Coalesce(db.jobs[id].stage, Blank), value, db.now));
    }
  }

  lemma UserArchiveLogged(db: Db, user: User, id: JobId)
    requires Replays(db) && Rooted(db.events)
    ensures Replays(ArchiveJob(db, user, id)) && Rooted(ArchiveJob(db, user, id).events)
  {
    if id in db.jobs {
      var e := Event(user, id, StatusChange, Null, Val(Archived), db.now);
      RootedAppend(db.events, e);
      var after := ArchiveJob(db, user, id);
      forall k | k in after.jobs
        ensures after.jobs[k].stage == LastTo(after.events, after.jobs[k].user, k)
      { LastToAppend(db.events, e, after.jobs[k].user, k); }
    }
  }

  lemma {:induction false} GhostsLogged(db: Db, user: User, items: seq<GhostItem>)
    requires Replays(db) && Rooted(db.events)
    requires forall i :: 0 <= i < |items| ==> Owns(db.jobs, user, items[i].id) && items[i].stage == Applied
    ensures Replays(GhostAll(db, user, items)) && Rooted(GhostAll(db, user, items).events)
    ensures forall k :: k in db.jobs ==> k in GhostAll(db, user, items).jobs && GhostAll(db, user, items).jobs[k].user == db.jobs[k].user
  {
    if items != [] {
      var n := |items| - 1;
      var mid := GhostAll(db, user, items[..n]);
      GhostsLogged(db, user, items[..n]);
      assert Owns(mid.jobs, user, items[n].id);
      LoggedMove(mid, GhostOne(mid, user, items[n]), items[n].id,
                 StageEvent(user, items[n].id, OrApplied(items[n].stage), Ghosted, mid.now));
    }
  }

  lemma RejectionLogged(db: Db, user: User, id: JobId, from: Word, at: int)
    requires Replays(db) && Rooted(db.events) && ReadOk(db, RejectRead(user, id, from))
    ensures Replays(RejectWrite(db, user, id, from, at)) && Rooted(RejectWrite(db, user, id, from, at).events)
  {
    LoggedMove(db, RejectWrite(db, user, id, from, at), id, StageEvent(user, id, from, Rejected, db.now));
  }

  /** The other steps keep the log and every stage, and create rows without a stage. */
  lemma SilentStep(w: World, a: Action)
    requires !a.CanonicalizeOne? && !Logs(a)
    ensures Step(w, a).db.events == w.db.events
    ensures forall id :: id in w.db.jobs ==>
              id in Step(w, a).db.jobs && Step(w, a).db.jobs[id].stage == w.db.jobs[id].stage && Step(w, a).db.jobs[id].user == w.db.jobs[id].user
    ensures forall id :: id in Step(w, a).db.jobs && id !in w.db.jobs ==> Step(w, a).db.jobs[id].stage.Null?
  {
    forall id | id in w.db.jobs
      ensures id in Step(w, a).db.jobs && Step(w, a).db.jobs[id].stage == w.db.jobs[id].stage && Step(w, a).db.jobs[id].user == w.db.jobs[id].user
    { var e := StepEffect(w, a, id); }
    forall id | id in Step(w, a).db.jobs && id !in w.db.jobs
      ensures Step(w, a).db.jobs[id].stage.Null?
    { StepFresh(w, a, id); }
    EventsKept(w.db, a);
  }

  lemma EventsKept(db: Db, a: Action)
    requires !a.CanonicalizeOne? && !Logs(a)
    ensures NewDb(db, a).events == db.events
  {
    hide NewJobs, C.CanonicalizeJob, SetPipelineStage, ArchiveJob, GhostWrite, RejectWrite;
  }

  lemma {:induction false} NoEventNoStage(es: seq<Event>, user: User, job: JobId)
    requires forall i :: 0 <= i < |es| ==> es[i].job != job
    ensures LastTo(es, user, job).Null?
  {
    if es != [] { NoEventNoStage(es[..|es| - 1], user, job); }
  }

  lemma SilentKeepsLog(db: Db, after: Db)
    requires Replays(db) && after.events == db.events
    requires forall id :: id in db.jobs ==> id in after.jobs && after.jobs[id].stage == db.jobs[id].stage && after.jobs[id].user == db.jobs[id].user
    requires forall id :: id in after.jobs && id !in db.jobs ==> after.jobs[id].stage.Null?
    ensures Replays(after)
  {
    forall id | id in after.jobs
      ensures after.jobs[id].stage == LastTo(after.events, after.jobs[id].user, id)
    {
      if id !in db.jobs { NoEventNoStage(db.events, after.jobs[id].user, id); }
    }
  }

  // ---------------------------------------------------------------- every run

  lemma StepIsLogged(w: World, a: Action)
    requires Logs(a)
    ensures Step(w, a).db == if Enabled(w, a) then Logged(w.db, a) else w.db
  {
    hide NewDb, NewReads, Enabled, Logged;
    NewDbIsLogged(w.db, a);
  }

  lemma LoggedKeepsLog(w: World, a: Action)
    requires LogInv(w) && Logs(a) && Enabled(w, a)
    ensures Replays(Logged(w.db, a)) && Rooted(Logged(w.db, a).events)
  {
    hide SetPipelineStage, ArchiveJob, RejectWrite, Replays, Rooted, Entered;
    if IsStageMove(a) {
      StageMoveLogged(w.db, a.user, a.id, if a.SetStage? then a.value else if a.WriteClose? then Closed else Blank);
    } else if a.ArchiveByUser? {
      UserArchiveLogged(w.db, a.user, a.id);
    } else if a.WriteGhosts? {
      forall i | 0 <= i < |a.items|
        ensures Owns(w.db.jobs, a.user, a.items[i].id) && a.items[i].stage == Applied
      { assert ReadOk(w.db, GhostRead(a.user, a.items[i])); }
      GhostsLogged(w.db, a.user, a.items);
    } else {
      assert ReadOk(w.db, RejectRead(a.user, a.id, a.from));
      RejectionLogged(w.db, a.user, a.id, a.from, a.at);
    }
  }

  lemma LogStep(w: World, a: Action)
    requires LogInv(w) && !a.CanonicalizeOne?
    ensures Replays(Step(w, a).db) && Rooted(Step(w, a).db.events)
  {
    hide Step, Logged, Replays, Rooted;
    if Logs(a) {
      StepIsLogged(w, a);
      if Enabled(w, a) { LoggedKeepsLog(w, a); }
    } else {
      SilentStep(w, a);
      SilentKeepsLog(w.db, Step(w, a).db);
    }
  }

  lemma LoggedGrows(db: Db, a: Action) returns (more: seq<Event>)
    requires Logs(a)
    ensures Logged(db, a).events == db.events + more
  {
    if a.WriteGhosts? {
      more := GhostsAppend(db, a.user, a.items);
      if !AllExist(db.jobs, a.items) { more := []; }
    } else {
      more := Logged(db, a).events[|db.events|..];
    }
  }

  /** Steps other than canonicalization only append to the log. */
  lemma LogGrows(w: World, a: Action) returns (more: seq<Event>)
    requires !a.CanonicalizeOne?
    ensures Step(w, a).db.events == w.db.events + more
  {
    hide Step, Logged;
    more := [];
    if Logs(a) {
      StepIsLogged(w, a);
      if Enabled(w, a) { more := LoggedGrows(w.db, a); }
    } else {
      SilentStep(w, a);
    }
  }

  lemma {:induction false} GhostsAppend(db: Db, user: User, items: seq<GhostItem>) returns (more: seq<Event>)
    ensures GhostAll(db, user, items).events == db.events + more
  {
    more := [];
    if items != [] {
      var n := |items| - 1;
      var mid := GhostsAppend(db, user, items[..n]);
      more := mid + GhostAll(db, user, items).events[|GhostAll(db, user, items[..n]).events|..];
    }
  }

  lemma ReadOkStays(w: World, a: Action, r: Read)
    requires !a.CanonicalizeOne? && ReadOk(w.db, r)
    ensures ReadOk(Step(w, a).db, r)
  {
    hide Step, Causes, Entered;
    var more := LogGrows(w, a);
    match r {
      case GhostRead(user, item) => var e := StepEffect(w, a, item.id);
      case RejectRead(user, id, from) =>
        var e := StepEffect(w, a, id);
        if from != Applied { EnteredGrows(w.db.events, more, user, id, from); }
      case _ =>
    }
  }

  lemma NewReadOk(w: World, a: Action, r: Read)
    requires Replays(w.db) && Lifecycle.RowsInv(w) && r in NewReads(w.db, a)
    ensures ReadOk(w.db, r)
  {
    match r {
      case GhostRead(user, item) =>
        assert Lifecycle.GoodLife(LifeOf(w.db.jobs[item.id]));
      case RejectRead(user, id, from) =>
        if w.db.jobs[id].stage.Val? { LastToEntered(w.db.events, user, id); }
      case _ =>
    }
  }

  lemma NewReadsStayOk(w: World, a: Action, r: Read)
    requires LogInv(w) && Lifecycle.RowsInv(w) && !a.CanonicalizeOne? && r in Step(w, a).inFlight
    ensures ReadOk(Step(w, a).db, r)
  {
    if r !in w.inFlight { NewReadOk(w, a, r); }
    ReadOkStays(w, a, r);
  }

  predicate NoCanonicalize(acts: seq<Action>) { forall i :: 0 <= i < |acts| ==> !acts[i].CanonicalizeOne? }

  /** In every run without canonicalization, folding a row's events gives its stage, and no stage is left that was not entered. */
  lemma {:induction false} ReachableLogReplays(acts: seq<Action>)
    requires NoCanonicalize(acts)
    ensures LogInv(Run(START, acts))
  {
    if acts != [] {
      var init := acts[..|acts| - 1];
      var a := acts[|acts| - 1];
      ReachableLogReplays(init);
      Lifecycle.ReachableRowsGood(init);
      LogStep(Run(START, init), a);
      forall r | r in Step(Run(START, init), a).inFlight
        ensures ReadOk(Step(Run(START, init), a).db, r)
      { NewReadsStayOk(Run(START, init), a, r); }
    }
  }

  // ---------------------------------------------------------------- the chain of from and to

  /**
   * from_value is the previous to_value. Only a rejection e-mail for a row whose stage the user had cleared
   * may log the stand-in `applied`.
   */
  predicate Chained(es: seq<Event>, i: int)
    requires 0 <= i < |es|
  {
    var previous := LastTo(es[..i], es[i].user, es[i].job);
    es[i].kind == StageChange ==>
      es[i].from == previous || (previous.Null? && es[i].from == Val(Applied) && es[i].to == Val(Rejected))
  }

  predicate AllChained(es: seq<Event>) { forall i :: 0 <= i < |es| ==> Chained(es, i) }

  /** The sweeps write while the stage that they read is still the row's stage. */
  predicate WritesFresh(w: World, a: Action) {
    Enabled(w, a) ==>
      match a
      case WriteGhosts(_, items) => FreshItems(w.db, items)
      case WriteRejection(_, id, from, _) => id in w.db.jobs ==> OrApplied(Coalesce(w.db.jobs[id].stage, Blank)) == from
      case _ => true
  }

  predicate FreshItems(db: Db, items: seq<GhostItem>) {
    (forall i, j :: 0 <= i < j < |items| ==> items[i].id != items[j].id) &&
    (forall i :: 0 <= i < |items| ==> items[i].id in db.jobs ==> Coalesce(db.jobs[items[i].id].stage, Blank) == items[i].stage)
  }

  predicate RunWritesFresh(acts: seq<Action>) {
    forall i :: 0 <= i < |acts| ==> WritesFresh(Run(START, acts[..i]), acts[i])
  }

  lemma ChainAppend(es: seq<Event>, e: Event)
    requires AllChained(es)
    requires e.kind == StageChange ==>
               e.from == LastTo(es, e.user, e.job) ||
               (LastTo(es, e.user, e.job).Null? && e.from == Val(Applied) && e.to == Val(Rejected))
    ensures AllChained(es + [e])
  {
    forall i | 0 <= i < |es + [e]|
      ensures Chained(es + [e], i)
    {
      if i < |es| {
        assert Chained(es, i);
        assert (es + [e])[..i] == es[..i];
      } else {
        assert (es + [e])[..i] == es;
      }
    }
  }

  lemma StageMoveChained(db: Db, user: User, id: JobId, value: Word)
    requires Replays(db) && AllChained(db.events)
    ensures AllChained(SetPipelineStage(db, user, id, value).events)
  {
    if Owns(db.jobs, user, id) {
      ChainAppend(db.events, StageEvent(user, id, Coalesce(db.jobs[id].stage, Blank), value, db.now));
    }
  }

  lemma {:induction false} GhostsChained(db: Db, user: User, items: seq<GhostItem>)
    requires Replays(db) && Rooted(db.events) && AllChained(db.events)
    requires forall i :: 0 <= i < |items| ==>
               Owns(db.jobs, user, items[i].id) && items[i].stage == Applied && db.jobs[items[i].id].stage == Val(Applied)
    requires forall i, j :: 0 <= i < j < |items| ==> items[i].id != items[j].id
    ensures AllChained(GhostAll(db, user, items).events)
  {
    if items != [] {
      var n := |items| - 1;
      var init := items[..n];
      GhostsChained(db, user, init);
      GhostsLogged(db, user, init);
      var id := items[n].id;
      GhostAllRow(db, user, init, id);
      assert !Ids(init, id) by {
        forall i | 0 <= i < |init| ensures init[i].id != id { assert items[i].id != items[n].id; }
      }
      var mid := GhostAll(db, user, init);
      ChainAppend(mid.events, StageEvent(user, id, Applied, Ghosted, mid.now));
    }
  }

  lemma LoggedChained(w: World, a: Action)
    requires LogInv(w) && AllChained(w.db.events) && Logs(a) && Enabled(w, a) && WritesFresh(w, a)
    ensures AllChained(Logged(w.db, a).events)
  {
    hide SetPipelineStage, Rooted, Entered, AllChained;
    if IsStageMove(a) {
      StageMoveChained(w.db, a.user, a.id, if a.SetStage? then a.value else if a.WriteClose? then Closed else Blank);
    } else if a.ArchiveByUser? {
      ChainAppend(w.db.events, Event(a.user, a.id, StatusChange, Null, Val(Archived), w.db.now));
    } else if a.WriteGhosts? {
      forall i | 0 <= i < |a.items|
        ensures Owns(w.db.jobs, a.user, a.items[i].id) && a.items[i].stage == Applied && w.db.jobs[a.items[i].id].stage == Val(Applied)
      { assert ReadOk(w.db, GhostRead(a.user, a.items[i])); }
      GhostsChained(w.db, a.user, a.items);
    } else {
      assert ReadOk(w.db, RejectRead(a.user, a.id, a.from));
      ChainAppend(w.db.events, StageEvent(a.user, a.id, a.from, Rejected, w.db.now));
    }
  }

  lemma ChainStep(w: World, a: Action)
    requires LogInv(w) && AllChained(w.db.events) && !a.CanonicalizeOne? && WritesFresh(w, a)
    ensures AllChained(Step(w, a).db.events)
  {
    hide Step, Logged, AllChained;
    if Logs(a) {
      StepIsLogged(w, a);
      if Enabled(w, a) { LoggedChained(w, a); }
    } else {
      SilentStep(w, a);
    }
  }

  // ---------------------------------------------------------------- and a stale write breaks it

  lemma ChainPrefix(es: seq<Event>, more: seq<Event>)
    requires AllChained(es + more)
    ensures AllChained(es)
  {
    forall i | 0 <= i < |es|
      ensures Chained(es, i)
    {
      assert Chained(es + more, i);
      assert (es + more)[..i] == es[..i];
    }
  }

  lemma ChainLast(es: seq<Event>, e: Event)
    requires AllChained(es + [e]) && e.kind == StageChange
    ensures AllChained(es)
    ensures e.from == LastTo(es, e.user, e.job) || (LastTo(es, e.user, e.job).Null? && e.from == Val(Applied) && e.to == Val(Rejected))
  {
    ChainPrefix(es, [e]);
    assert Chained(es + [e], |es|);
    assert (es + [e])[..|es|] == es;
  }

  lemma LastGhostFresh(db: Db, user: User, init: seq<GhostItem>, item: GhostItem)
    requires Replays(db) && Rooted(db.events) && AllChained(GhostOne(GhostAll(db, user, init), user, item).events)
    requires forall i :: 0 <= i < |init| ==> Owns(db.jobs, user, init[i].id) && init[i].stage == Applied
    requires Owns(db.jobs, user, item.id) && item.stage == Applied
    ensures AllChained(GhostAll(db, user, init).events)
    ensures !Ids(init, item.id) && db.jobs[item.id].stage == Val(Applied)
  {
    hide AllChained, Rooted, Ids;
    var mid := GhostAll(db, user, init);
    ChainLast(mid.events, StageEvent(user, item.id, Applied, Ghosted, mid.now));
    GhostsLogged(db, user, init);
    GhostAllRow(db, user, init, item.id);
  }

  lemma {:induction false} ChainedGhostsFresh(db: Db, user: User, items: seq<GhostItem>)
    requires Replays(db) && Rooted(db.events) && AllChained(GhostAll(db, user, items).events)
    requires forall i :: 0 <= i < |items| ==> Owns(db.jobs, user, items[i].id) && items[i].stage == Applied
    ensures FreshItems(db, items)
  {
    if items != [] {
      var n := |items| - 1;
      var init := items[..n];
      hide AllChained, Rooted, Replays;
      LastGhostFresh(db, user, init, items[n]);
      ChainedGhostsFresh(db, user, init);
      forall i, j | 0 <= i < j < |items| ensures items[i].id != items[j].id {
        if j < n { assert init[i].id != init[j].id; } else { assert init[i] == items[i]; }
      }
    }
  }

  lemma ChainedRejectionFresh(db: Db, user: User, id: JobId, from: Word, at: int)
    requires Replays(db) && ReadOk(db, RejectRead(user, id, from)) && AllChained(RejectWrite(db, user, id, from, at).events)
    ensures OrApplied(Coalesce(db.jobs[id].stage, Blank)) == from
  {
    hide AllChained, Entered;
    ChainLast(db.events, StageEvent(user, id, from, Rejected, db.now));
  }

  lemma ChainedStepFresh(w: World, a: Action)
    requires LogInv(w) && !a.CanonicalizeOne? && AllChained(Step(w, a).db.events)
    ensures WritesFresh(w, a)
  {
    hide Step, AllChained, Rooted, Replays;
    if Enabled(w, a) && a.WriteGhosts? {
      StepIsLogged(w, a);
      forall i | 0 <= i < |a.items|
        ensures Owns(w.db.jobs, a.user, a.items[i].id) && a.items[i].stage == Applied
      { assert ReadOk(w.db, GhostRead(a.user, a.items[i])); }
      ChainedGhostsFresh(w.db, a.user, a.items);
    } else if Enabled(w, a) && a.WriteRejection? {
      StepIsLogged(w, a);
      assert ReadOk(w.db, RejectRead(a.user, a.id, a.from));
      ChainedRejectionFresh(w.db, a.user, a.id, a.from, a.at);
    }
  }

  /** Every event starts where the previous one of its job ended, if and only if every sweep wrote what it had read freshly. */
  lemma {:induction false} ReachableLogChained(acts: seq<Action>)
    requires NoCanonicalize(acts)
    ensures AllChained(Run(START, acts).db.events) <==> RunWritesFresh(acts)
  {
    if acts != [] {
      hide Step, AllChained, LogInv;
      var n := |acts| - 1;
      var w := Run(START, acts[..n]);
      forall i | 0 <= i < n ensures acts[..n][..i] == acts[..i] { }
      ReachableLogChained(acts[..n]);
      ReachableLogReplays(acts[..n]);
      FreshLast(acts);
      if AllChained(w.db.events) && WritesFresh(w, acts[n]) { ChainStep(w, acts[n]); }
      if AllChained(Step(w, acts[n]).db.events) {
        var more := LogGrows(w, acts[n]);
        ChainPrefix(w.db.events, more);
        ChainedStepFresh(w, acts[n]);
      }
    }
  }

  lemma FreshLast(acts: seq<Action>)
    requires acts != []
    ensures var n := |acts| - 1;
            RunWritesFresh(acts) <==> RunWritesFresh(acts[..n]) && WritesFresh(Run(START, acts[..n]), acts[n])
  {
    hide WritesFresh, Run;
    var n := |acts| - 1;
    forall i | 0 <= i < n ensures acts[..n][..i] == acts[..i] { }
    if RunWritesFresh(acts) {
      forall i | 0 <= i < n ensures WritesFresh(Run(START, acts[..n][..i]), acts[..n][i]) { assert WritesFresh(Run(START, acts[..i]), acts[i]); }
    }
    if RunWritesFresh(acts[..n]) && WritesFresh(Run(START, acts[..n]), acts[n]) {
      forall i | 0 <= i < |acts| ensures WritesFresh(Run(START, acts[..i]), acts[i]) {
        if i < n { assert WritesFresh(Run(START, acts[..n][..i]), acts[..n][i]); }
      }
    }
  }

  /** A rejection e-mail read before the user moved the row and written after it: its event starts at a stage already left. */
  function StaleRejection(user: User, id: JobId, lead: Lead, at: int): seq<Action> {
    [InsertLead(user, id, lead), SetStage(user, id, Applied), ReadRejection(user, id),
     SetStage(user, id, PhoneScreen), WriteRejection(user, id, Applied, at)]
  }

  lemma StaleRejectionBreaksChain(user: User, id: JobId, lead: Lead, at: int)
    ensures !AllChained(Run(START, StaleRejection(user, id, lead, at)).db.events)
  {
    hide Step, AllChained, InsertLeadInto;
    var acts := StaleRejection(user, id, lead, at);
    var w1 := Step(START, acts[0]);
    var w2, w3 := Step(w1, acts[1]), Step(Step(w1, acts[1]), acts[2]);
    var w4 := Step(w3, acts[3]);
    LeadInserted(user, id, lead);
    StepStages(w1, user, id, Applied);
    StepReadsRejection(w2, user, id);
    StepStages(w3, user, id, PhoneScreen);
    assert !WritesFresh(w4, acts[4]);
    forall k | 0 <= k < 4
      ensures Run(START, acts[..k + 1]) == Step(Run(START, acts[..k]), acts[k])
    {
      Lifecycle.RunOne(START, acts[..k], acts[k]);
      assert acts[..k] + [acts[k]] == acts[..k + 1];
    }
    assert acts[..0 + 1] == acts[..1] && acts[..1 + 1] == acts[..2] && acts[..2 + 1] == acts[..3] && acts[..3 + 1] == acts[..4];
    assert !WritesFresh(Run(START, acts[..4]), acts[4]);
    ReachableLogChained(acts);
  }

  lemma LeadInserted(user: User, id: JobId, lead: Lead)
    ensures Owns(Step(START, InsertLead(user, id, lead)).db.jobs, user, id)
  {
  }

  lemma StepStages(w: World, user: User, id: JobId, value: Word)
    requires Owns(w.db.jobs, user, id) && value in {Applied, PhoneScreen}
    ensures var after := Step(w, SetStage(user, id, value));
            Owns(after.db.jobs, user, id) && after.db.jobs[id].stage == Val(value) && after.db.jobs[id].appliedAt.Val? &&
            after.inFlight == w.inFlight
  {
  }

  lemma StepReadsRejection(w: World, user: User, id: JobId)
    requires Owns(w.db.jobs, user, id) && w.db.jobs[id].stage == Val(Applied) && w.db.jobs[id].appliedAt.Val?
    ensures var after := Step(w, ReadRejection(user, id));
            after.db == w.db && RejectRead(user, id, Applied) in after.inFlight
  {
  }
}
