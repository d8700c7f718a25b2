/** reachedCTE of analytics.go: which jobs count as having reached a tracked stage. */
module Reached {
  import opened Sql
  import opened Tables
  import opened Actions
  import opened Replay
  import P = Pipeline
  import C = Canonicalize
  import L = LedgerRuns
  import B = ScoreBatch

  const DAY := 86400

  datatype ReachedRow = ReachedRow(job: JobId, stage: Word)

  /** `ORDER BY created_at, id`: the table is in id order. */
  predicate Later(es: seq<Event>, i: int, j: int)
    requires 0 <= i < |es| && 0 <= j < |es|
  {
    es[i].at < es[j].at || (es[i].at == es[j].at && i < j)
  }

  predicate SameStream(es: seq<Event>, i: int, j: int)
    requires 0 <= i < |es| && 0 <= j < |es|
  {
    IsStageEvent(es[j], es[i].user, es[i].job)
  }

  /** `LEAD(created_at)`: event `j` ends the episode that event `i` starts. */
  predicate Ends(es: seq<Event>, i: int, j: int)
    requires 0 <= i < |es| && 0 <= j < |es|
  {
    SameStream(es, i, j) && Later(es, i, j) &&
    forall k :: 0 <= k < |es| && SameStream(es, i, k) && Later(es, i, k) ==> k == j || Later(es, j, k)
  }

  /** Branch 1: a recorded episode of a day or more, or an open one entered by the cutoff. */
  predicate StoodLong(es: seq<Event>, i: int, cutoff: int)
    requires 0 <= i < |es|
  {
    if exists j :: 0 <= j < |es| && Ends(es, i, j)
    then exists j :: 0 <= j < |es| && Ends(es, i, j) && es[j].at - es[i].at >= DAY
    else es[i].at <= cutoff
  }

  function Episodes(db: Db, user: User, cutoff: int): set<ReachedRow> {
    set i | 0 <= i < |db.events| && db.events[i].kind == StageChange && db.events[i].user == user
            && Owns(db.jobs, user, db.events[i].job)
            && db.events[i].to.Val? && db.events[i].to.v in TRACKED && StoodLong(db.events, i, cutoff)
      :: ReachedRow(db.events[i].job, db.events[i].to.v)
  }

  /** Branch 2: a tracked stage that the job left and that no event of the job entered. */
  predicate LeftUnentered(es: seq<Event>, i: int)
    requires 0 <= i < |es|
  {
    es[i].kind == StageChange && es[i].from.Val? && es[i].from.v in TRACKED
    && !Entered(es, es[i].user, es[i].job, es[i].from.v)
  }

  function PreHistory(db: Db, user: User): set<ReachedRow> {
    set i | 0 <= i < |db.events| && db.events[i].user == user && Owns(db.jobs, user, db.events[i].job) && LeftUnentered(db.events, i)
      :: ReachedRow(db.events[i].job, db.events[i].from.v)
  }

  /** Branch 3: the current stage, untouched since the cutoff. */
  function Current(db: Db, user: User, cutoff: int): set<ReachedRow> {
    set id | id in db.jobs && db.jobs[id].user == user && db.jobs[id].stage.Val? && db.jobs[id].stage.v in TRACKED
             && db.jobs[id].updatedAt <= cutoff
      :: ReachedRow(id, db.jobs[id].stage.v)
  }

  /** Branch 4: a rejection out of a tracked stage. */
  function RejectedOut(db: Db, user: User): set<ReachedRow> {
    set id | id in db.jobs && db.jobs[id].user == user && db.jobs[id].rejectedFromStage.Val? && db.jobs[id].rejectedFromStage.v in TRACKED
      :: ReachedRow(id, db.jobs[id].rejectedFromStage.v)
  }

  function ReachedRows(db: Db, user: User, cutoff: int): set<ReachedRow> {
    Episodes(db, user, cutoff) + PreHistory(db, user) + Current(db, user, cutoff) + RejectedOut(db, user)
  }

  /** Every reached row names a tracked stage of a job that the tenant has. */
  lemma ReachedRowsAreJobs(db: Db, user: User, cutoff: int, r: ReachedRow)
    requires r in ReachedRows(db, user, cutoff)
    ensures Owns(db.jobs, user, r.job) && r.stage in TRACKED
  {
  }

  /** For rows that were inserted without a stage the pre-history branch is empty, whatever happened to them since. */
  lemma PreHistoryEmpty(acts: seq<Action>, user: User)
    requires NoCanonicalize(acts)
    ensures PreHistory(Run(START, acts).db, user) == {}
  {
    ReachableLogReplays(acts);
    var es := Run(START, acts).db.events;
    forall i | 0 <= i < |es|
      ensures !LeftUnentered(es, i)
    {
      assert LeftWasEntered(es, i);
      if es[i].kind == StageChange && es[i].from.Val? && es[i].from.v in TRACKED {
        EnteredGrows(es[..i], es[i..], es[i].user, es[i].job, es[i].from.v);
        assert es[..i] + es[i..] == es;
      }
    }
  }

  // ---------------------------------------------------------------- the log is in the order of time

  /** Events are logged in the order of their times, none later than now. */
  predicate InOrder(db: Db) {
    (forall i, j :: 0 <= i < j < |db.events| ==> db.events[i].at <= db.events[j].at) &&
    (forall i :: 0 <= i < |db.events| ==> db.events[i].at <= db.now)
  }

  lemma LoggedNow(db: Db, a: Action) returns (more: seq<Event>)
    requires Logs(a)
    ensures Logged(db, a).events == db.events + more && forall i :: 0 <= i < |more| ==> more[i].at == db.now
  {
    hide P.Staged, P.UserArchived, P.RejectedRow, P.GhostAll;
    if a.WriteGhosts? {
      P.GhostAllLogs(db, a.user, a.items);
      more := if P.AllExist(db.jobs, a.items) then P.GhostEvents(a.user, a.items, db.now) else [];
    } else {
      more := Logged(db, a).events[|db.events|..];
    }
  }

  lemma AppendKeepsOrder(db: Db, after: Db, more: seq<Event>)
    requires InOrder(db) && after.events == db.events + more && after.now >= db.now
    requires forall i :: 0 <= i < |more| ==> more[i].at == db.now
    ensures InOrder(after)
  {
  }

  lemma CanonicalizeKeepsOrder(db: Db, a: Action)
    requires a.CanonicalizeOne? && InOrder(db)
    ensures InOrder(C.CanonicalizeJob(db, a.user, a.altId, a.alt, a.res, a.rowId))
  {
    hide C.Commits, C.FoldedJobs, C.Aliased, C.ArchiveAlternate;
  }

  lemma OrderStep(w: World, a: Action)
    requires InOrder(w.db)
    ensures InOrder(Step(w, a).db)
  {
    hide NewReads, NewJobs, Logged, InOrder, C.CanonicalizeJob, P.SetPipelineStage, P.ArchiveJob, P.GhostWrite, P.RejectWrite, B.CreateBatch, B.CloseBatch, B.ApplyBatch;
    if Enabled(w, a) {
      L.LaterNow(w, a);
      if Logs(a) {
        NewDbIsLogged(w.db, a);
        var more := LoggedNow(w.db, a);
        AppendKeepsOrder(w.db, Step(w, a).db, more);
      } else if a.CanonicalizeOne? {
        CanonicalizeKeepsOrder(w.db, a);
      } else {
        EventsKept(w.db, a);
        AppendKeepsOrder(w.db, Step(w, a).db, []);
      }
    }
  }

  /** In every reachable state, canonicalizations included, the log is in the order of time. */
  lemma {:induction false} ReachableInOrder(acts: seq<Action>)
    ensures InOrder(Run(START, acts).db)
  {
    if acts != [] {
      ReachableInOrder(acts[..|acts| - 1]);
      OrderStep(Run(START, acts[..|acts| - 1]), acts[|acts| - 1]);
    }
  }

  // ---------------------------------------------------------------- so an episode lasts until the job's next event

  predicate OfJob(e: Event, user: User, job: JobId) { e.kind == StageChange && e.user == user && e.job == job }

  /** `j` is the first stage change of the same job after `i`. */
  predicate NextChange(es: seq<Event>, i: int, j: int)
    requires 0 <= i < |es| && 0 <= j < |es|
  {
    i < j && OfJob(es[j], es[i].user, es[i].job) && forall k :: i < k < j ==> !OfJob(es[k], es[i].user, es[i].job)
  }

  /** The job stood in the stage for a day, or has stood there since the cutoff. */
  predicate Stood(es: seq<Event>, i: int, cutoff: int)
    requires 0 <= i < |es|
  {
    (exists j :: 0 <= j < |es| && NextChange(es, i, j) && es[j].at - es[i].at >= 24 * 3600) ||
    ((forall j :: i < j < |es| ==> !OfJob(es[j], es[i].user, es[i].job)) && es[i].at <= cutoff)
  }

  lemma EndsIsNext(db: Db, i: int, j: int)
    requires InOrder(db) && 0 <= i < |db.events| && 0 <= j < |db.events|
    ensures Ends(db.events, i, j) <==> NextChange(db.events, i, j)
  {
    var es := db.events;
    if Ends(es, i, j) {
      forall k | i < k < j ensures !OfJob(es[k], es[i].user, es[i].job) { assert SameStream(es, i, k) ==> !Later(es, i, k); }
    }
    if NextChange(es, i, j) {
      forall k | 0 <= k < |es| && SameStream(es, i, k) && Later(es, i, k)
        ensures k == j || Later(es, j, k)
      { assert i < k && !(i < k < j); }
    }
  }

  lemma {:induction false} FirstChange(es: seq<Event>, i: int, j: int) returns (n: int)
    requires 0 <= i < j < |es| && OfJob(es[j], es[i].user, es[i].job)
    ensures 0 <= n < |es| && NextChange(es, i, n)
  {
    n := j;
    if k :| i < k < j && OfJob(es[k], es[i].user, es[i].job) { n := FirstChange(es, i, k); }
  }

  lemma StoodLongIs(db: Db, i: int, cutoff: int)
    requires InOrder(db) && 0 <= i < |db.events|
    ensures StoodLong(db.events, i, cutoff) <==> Stood(db.events, i, cutoff)
  {
    hide Ends, NextChange, InOrder;
    var es := db.events;
    forall j | 0 <= j < |es| ensures Ends(es, i, j) <==> NextChange(es, i, j) { EndsIsNext(db, i, j); }
    if j :| i < j < |es| && OfJob(es[j], es[i].user, es[i].job) {
      var n := FirstChange(es, i, j);
      assert Ends(es, i, n);
    }
    forall j | 0 <= j < |es| && NextChange(es, i, j) ensures i < j && OfJob(es[j], es[i].user, es[i].job) { NextIsLater(es, i, j); }
  }

  lemma NextIsLater(es: seq<Event>, i: int, j: int)
    requires 0 <= i < |es| && 0 <= j < |es| && NextChange(es, i, j)
    ensures i < j && OfJob(es[j], es[i].user, es[i].job)
  {
  }

  /** Some event of the tenant's job entered the stage, and the job stood there. */
  predicate StoodIn(db: Db, user: User, cutoff: int, job: JobId, stage: Word) {
    exists i :: 0 <= i < |db.events| && OfJob(db.events[i], user, job) && db.events[i].to == Val(stage) && Stood(db.events, i, cutoff)
  }

  /** Some event left the stage, and none entered it. */
  predicate OnlyLeft(db: Db, user: User, job: JobId, stage: Word) {
    (exists i :: 0 <= i < |db.events| && OfJob(db.events[i], user, job) && db.events[i].from == Val(stage)) &&
    (forall i :: 0 <= i < |db.events| && OfJob(db.events[i], user, job) ==> db.events[i].to != Val(stage))
  }

  /**
   * With the log in the order of time, a job of the tenant counts as having reached a tracked stage exactly when it stood
   * there for a day or since the cutoff, or left it without having entered it, or is there untouched since the cutoff, or
   * was rejected out of it.
   */
  lemma ReachedExactly(db: Db, user: User, cutoff: int, job: JobId, stage: Word)
    requires InOrder(db)
    ensures ReachedRow(job, stage) in ReachedRows(db, user, cutoff) <==>
            job in db.jobs && db.jobs[job].user == user && stage in {PhoneScreen, Interview, Onsite, Offer} &&
            (StoodIn(db, user, cutoff, job, stage) || OnlyLeft(db, user, job, stage) ||
             (db.jobs[job].stage == Val(stage) && db.jobs[job].updatedAt <= cutoff) || db.jobs[job].rejectedFromStage == Val(stage))
  {
    hide Stood, StoodLong, InOrder;
    forall i | 0 <= i < |db.events| ensures StoodLong(db.events, i, cutoff) <==> Stood(db.events, i, cutoff) { StoodLongIs(db, i, cutoff); }
    EpisodesAre(db, user, cutoff, job, stage);
    PreHistoryIs(db, user, job, stage);
  }

  lemma EpisodesAre(db: Db, user: User, cutoff: int, job: JobId, stage: Word)
    requires forall i :: 0 <= i < |db.events| ==> (StoodLong(db.events, i, cutoff) <==> Stood(db.events, i, cutoff))
    ensures ReachedRow(job, stage) in Episodes(db, user, cutoff) <==>
            Owns(db.jobs, user, job) && stage in TRACKED && StoodIn(db, user, cutoff, job, stage)
  {
    hide Stood, StoodLong;
  }

  lemma PreHistoryIs(db: Db, user: User, job: JobId, stage: Word)
    ensures ReachedRow(job, stage) in PreHistory(db, user) <==>
            Owns(db.jobs, user, job) && stage in TRACKED && OnlyLeft(db, user, job, stage)
  {
    var es := db.events;
    if i :| 0 <= i < |es| && OfJob(es[i], user, job) && es[i].to == Val(stage) { assert Entered(es, user, job, stage); }
    if i :| 0 <= i < |es| && IsStageEvent(es[i], user, job) && es[i].to == Val(stage) { assert OfJob(es[i], user, job); }
    if i :| 0 <= i < |es| && OfJob(es[i], user, job) && es[i].from == Val(stage) && stage in TRACKED && OnlyLeft(db, user, job, stage) {
      assert LeftUnentered(es, i);
    }
  }
}
