/** What every run of the transactions keeps of a row's status, stage, archive reason and applied_at. */
module Lifecycle {
  import opened Sql
  import opened Tables
  import opened Actions
  import P = Pipeline
  import S = Scoring
  import C = Canonicalize

  // ---------------------------------------------------------------- pipeline rows always have a stage

  /** The status is never NULL, the stage never the empty text, and a row in the pipeline has a stage. */
  predicate GoodLife(l: Life) {
    l.status.Val? && l.stage != Val(Blank) && (l.status.v in PIPELINE ==> l.stage.Val?)
  }

  predicate RowsInv(w: World) {
    (forall id :: id in w.db.jobs ==> GoodLife(LifeOf(w.db.jobs[id]))) &&
    (forall r :: r in w.inFlight && r.AlternateRead? ==> GoodLife(LifeOf(r.row)))
  }

  lemma TransitionKeepsGood(e: Effect, b: Life, a: Life, now: int)
    requires Transition(e, b, a, now) && GoodLife(b)
    requires (e.MergedWith? || e.MergedAndArchived?) ==> GoodLife(LifeOf(e.alt))
    ensures GoodLife(a)
  {
  }

  lemma ReadsKeepGood(w: World, a: Action)
    requires RowsInv(w)
    ensures forall r :: r in Step(w, a).inFlight && r.AlternateRead? ==> GoodLife(LifeOf(r.row))
  {
  }

  lemma OldRowStaysGood(w: World, a: Action, id: JobId)
    requires RowsInv(w) && id in w.db.jobs
    ensures id in Step(w, a).db.jobs && GoodLife(LifeOf(Step(w, a).db.jobs[id]))
  {
    hide Step, Transition, GoodLife;
    var e := StepEffect(w, a, id);
    TransitionKeepsGood(e, LifeOf(w.db.jobs[id]), LifeOf(Step(w, a).db.jobs[id]), w.db.now);
  }

  lemma FreshRowGood(w: World, a: Action, id: JobId)
    requires RowsInv(w) && id in Step(w, a).db.jobs && id !in w.db.jobs
    ensures GoodLife(LifeOf(Step(w, a).db.jobs[id]))
  {
    hide Step;
    StepFresh(w, a, id);
  }

  lemma RowsInvStep(w: World, a: Action)
    requires RowsInv(w)
    ensures RowsInv(Step(w, a))
  {
    ReadsKeepGood(w, a);
    forall id | id in Step(w, a).db.jobs
      ensures GoodLife(LifeOf(Step(w, a).db.jobs[id]))
    { if id in w.db.jobs { OldRowStaysGood(w, a, id); } else { FreshRowGood(w, a, id); } }
  }

  /** In every reachable state a row with status applied or responded has a non-NULL stage. */
  lemma {:induction false} ReachableRowsGood(acts: seq<Action>)
    ensures RowsInv(Run(START, acts))
  {
    if acts != [] {
      ReachableRowsGood(acts[..|acts| - 1]);
      RowsInvStep(Run(START, acts[..|acts| - 1]), acts[|acts| - 1]);
    }
  }

  // ---------------------------------------------------------------- user-owned rows are safe

  predicate InPipeline(j: Job) { j.status.Val? && j.status.v in PIPELINE }

  /** The steps that may take row `id` out of the pipeline. */
  predicate Releases(a: Action, id: JobId) {
    match a
    case SetStage(_, i, _) => i == id
    case ArchiveByUser(_, i) => i == id
    case WriteGhosts(_, items) => P.Ids(items, id)
    case WriteRejection(_, i, _, _) => i == id
    case CanonicalizeOne(_, altId, _, _, _) => altId == id
    case WriteClose(_, i) => i == id
    case WriteReopen(_, i) => i == id
    case _ => false
  }

  /** The steps that may bring row `id` into the pipeline: a user move, or an alternate merged into it. */
  predicate MovesIn(a: Action, id: JobId) {
    match a
    case SetStage(_, i, value) => i == id && value !in {Blank, Closed, Rejected, Ghosted}
    case CanonicalizeOne(_, _, _, _, rowId) => rowId == id
    case _ => false
  }

  /** Scoring, batches, dedup, stale, prefilter, requeue and unarchive steps never touch a row in the pipeline. */
  lemma PipelineRowKept(w: World, a: Action, id: JobId)
    requires id in w.db.jobs && InPipeline(w.db.jobs[id]) && !Releases(a, id)
    ensures id in Step(w, a).db.jobs && InPipeline(Step(w, a).db.jobs[id])
    ensures !MovesIn(a, id) ==> Step(w, a).db.jobs[id].status == w.db.jobs[id].status && Step(w, a).db.jobs[id].stage == w.db.jobs[id].stage
  {
    hide Step, Transition, Causes, Releases, MovesIn;
    var e := StepEffect(w, a, id);
    CausesKept(a, id, e);
    TransitionKeepsPipeline(e, LifeOf(w.db.jobs[id]), LifeOf(Step(w, a).db.jobs[id]), w.db.now);
  }

  /** The effects that leave status and stage of a pipeline row alone, and those that may only merge into it. */
  predicate Harmless(e: Effect) { e.Untouched? || e.AutoArchived? || e.Revived? }
  predicate MovesUp(e: Effect) { e.MergedWith? || (e.StagedTo? && e.value !in {Blank, Closed, Rejected, Ghosted}) }

  lemma CausesKept(a: Action, id: JobId, e: Effect)
    requires Causes(a, id, e) && !Releases(a, id)
    ensures Harmless(e) || (MovesUp(e) && MovesIn(a, id))
  {
  }

  lemma TransitionKeepsPipeline(e: Effect, b: Life, a: Life, now: int)
    requires Transition(e, b, a, now) && (Harmless(e) || MovesUp(e))
    requires b.status.Val? && b.status.v in PIPELINE
    ensures a.status.Val? && a.status.v in PIPELINE
    ensures Harmless(e) ==> a.status == b.status && a.stage == b.stage
  {
  }

  lemma {:induction false} PipelineRowKeptOverRun(w: World, acts: seq<Action>, id: JobId)
    requires id in w.db.jobs && InPipeline(w.db.jobs[id])
    requires forall i :: 0 <= i < |acts| ==> !Releases(acts[i], id)
    ensures id in Run(w, acts).db.jobs && InPipeline(Run(w, acts).db.jobs[id])
    ensures (forall i :: 0 <= i < |acts| ==> !MovesIn(acts[i], id)) ==>
              Run(w, acts).db.jobs[id].status == w.db.jobs[id].status && Run(w, acts).db.jobs[id].stage == w.db.jobs[id].stage
  {
    if acts != [] {
      var init := acts[..|acts| - 1];
      PipelineRowKeptOverRun(w, init, id);
      PipelineRowKept(Run(w, init), acts[|acts| - 1], id);
    }
  }

  lemma {:induction false} RowsStay(w: World, acts: seq<Action>, id: JobId)
    requires id in w.db.jobs
    ensures id in Run(w, acts).db.jobs
  {
    hide Step;
    if acts != [] {
      RowsStay(w, acts[..|acts| - 1], id);
      var e := StepEffect(Run(w, acts[..|acts| - 1]), acts[|acts| - 1], id);
    }
  }

  lemma RunOne(w: World, acts: seq<Action>, a: Action)
    ensures Run(w, acts + [a]) == Step(Run(w, acts), a)
  {
    assert (acts + [a])[..|acts|] == acts;
  }

  /** applied_at is written once. */
  lemma AppliedAtOnce(w: World, a: Action, id: JobId)
    requires id in w.db.jobs && w.db.jobs[id].appliedAt.Val?
    ensures id in Step(w, a).db.jobs && Step(w, a).db.jobs[id].appliedAt == w.db.jobs[id].appliedAt
  {
    hide Step;
    var e := StepEffect(w, a, id);
  }

  lemma {:induction false} AppliedAtOnceOverRun(w: World, acts: seq<Action>, id: JobId)
    requires id in w.db.jobs && w.db.jobs[id].appliedAt.Val?
    ensures id in Run(w, acts).db.jobs && Run(w, acts).db.jobs[id].appliedAt == w.db.jobs[id].appliedAt
  {
    if acts != [] {
      AppliedAtOnceOverRun(w, acts[..|acts| - 1], id);
      AppliedAtOnce(Run(w, acts[..|acts| - 1]), acts[|acts| - 1], id);
    }
  }

  // ---------------------------------------------------------------- a re-score never reverses a user's archive

  predicate IsArchived(db: Db, id: JobId) { id in db.jobs && Is(db.jobs[id].status, Archived) }

  predicate OwnArchived(w: World, user: User, id: JobId) { IsArchived(w.db, id) && Owns(w.db.jobs, user, id) }

  /** No step moves an archived row of its tenant, and no merge lifts one out of the archive. */
  predicate SparesArchived(w: World, a: Action) {
    Enabled(w, a) ==>
      match a
      case SetStage(user, id, _) => !OwnArchived(w, user, id)
      case ArchiveByUser(user, id) => !OwnArchived(w, user, id)
      case WriteGhosts(user, items) => forall i :: 0 <= i < |items| ==> !OwnArchived(w, user, items[i].id)
      case WriteRejection(user, id, _, _) => !OwnArchived(w, user, id)
      case WriteClose(user, id) => !OwnArchived(w, user, id)
      case WriteReopen(user, id) => !OwnArchived(w, user, id)
      case CanonicalizeOne(_, altId, alt, res, rowId) =>
        C.IsPrimaryResolution(res) && rowId != altId && IsArchived(w.db, rowId) ==>
          C.PreferredStatus(Archived, Coalesce(alt.status, Blank)) == Archived
      case _ => true
  }

  predicate RunSparesArchived(w: World, acts: seq<Action>) {
    forall i :: 0 <= i < |acts| ==> SparesArchived(Run(w, acts[..i]), acts[i])
  }

  datatype Archiver = Nobody | User | Automatic

  /** The step archives the row, or writes its archive columns again. */
  predicate WritesArchive(w: World, a: Action, id: JobId) {
    IsArchived(Step(w, a).db, id) &&
    ((a.ArchiveByUser? && a.id == id && Owns(w.db.jobs, a.user, id)) || !IsArchived(w.db, id) ||
     w.db.jobs[id].archiveReason != Step(w, a).db.jobs[id].archiveReason)
  }

  /** Who archived the row last. */
  function LastArchiver(w: World, acts: seq<Action>, id: JobId): Archiver {
    if acts == [] then Nobody
    else
      var init := acts[..|acts| - 1];
      var a := acts[|acts| - 1];
      if WritesArchive(Run(w, init), a, id) then (if a.ArchiveByUser? then User else Automatic)
      else LastArchiver(w, init, id)
  }

  predicate Revivable(j: Job) { j.archiveReason.Val? && j.archiveReason.v in S.REVIVABLE }

  /** A live row has no archive reason; a row with a revivable reason was archived automatically. */
  predicate ReasonsInv(acts: seq<Action>) {
    var db := Run(START, acts).db;
    (forall id :: id in db.jobs && !IsArchived(db, id) ==> db.jobs[id].archiveReason.Null?) &&
    (forall id :: id in db.jobs && Revivable(db.jobs[id]) ==> LastArchiver(START, acts, id) == Automatic)
  }

  lemma SparedTransition(w: World, a: Action, id: JobId, e: Effect)
    requires id in w.db.jobs && SparesArchived(w, a) && Causes(a, id, e)
    requires id in Step(w, a).db.jobs && Transition(e, LifeOf(w.db.jobs[id]), LifeOf(Step(w, a).db.jobs[id]), w.db.now)
    requires !e.Untouched? ==> Enabled(w, a) && (Logs(a) ==> w.db.jobs[id].user == a.user)
    requires IsArchived(w.db, id) || w.db.jobs[id].archiveReason.Null?
    ensures IsArchived(Step(w, a).db, id) || Step(w, a).db.jobs[id].archiveReason.Null?
    ensures Revivable(Step(w, a).db.jobs[id]) ==>
              if WritesArchive(w, a, id) then !a.ArchiveByUser? else Revivable(w.db.jobs[id])
  {
    hide Step, Transition, Causes, SparesArchived;
    SparesEffect(w, a, id, e);
    ReasonSurvives(e, LifeOf(w.db.jobs[id]), LifeOf(Step(w, a).db.jobs[id]), w.db.now);
  }

  /** The effects that a step which spares archived rows may have on an archived row. */
  predicate Spares(e: Effect) {
    match e
    case StagedTo(_) => false
    case ArchivedByUser => false
    case GhostedBySweep => false
    case RejectedByMail(_, _) => false
    case MergedWith(alt) => C.PreferredStatus(Archived, Coalesce(alt.status, Blank)) == Archived
    case _ => true
  }

  lemma SparesEffect(w: World, a: Action, id: JobId, e: Effect)
    requires id in w.db.jobs && SparesArchived(w, a) && Causes(a, id, e)
    requires !e.Untouched? ==> Enabled(w, a) && (Logs(a) ==> w.db.jobs[id].user == a.user)
    ensures IsArchived(w.db, id) ==> Spares(e)
    ensures a.ArchiveByUser? ==> e.Untouched? || (e.ArchivedByUser? && a.id == id && Owns(w.db.jobs, a.user, id))
    ensures a.ArchiveByUser? && a.id == id && Owns(w.db.jobs, a.user, id) ==> !IsArchived(w.db, id)
  {
    if e.GhostedBySweep? {
      var i :| 0 <= i < |a.items| && a.items[i].id == id;
      assert !OwnArchived(w, a.user, a.items[i].id);
    }
  }

  lemma ReasonSurvives(e: Effect, b: Life, a: Life, now: int)
    requires Transition(e, b, a, now) && (Is(b.status, Archived) ==> Spares(e))
    requires Is(b.status, Archived) || b.reason.Null?
    ensures Is(a.status, Archived) || a.reason.Null?
    ensures e.ArchivedByUser? ==> a.reason == b.reason
    ensures e.Untouched? ==> a == b
    ensures a.reason == b.reason && a.reason.Val? ==> Is(b.status, Archived)
  {
  }

  lemma {:induction false} ReasonsReachable(acts: seq<Action>)
    requires RunSparesArchived(START, acts)
    ensures ReasonsInv(acts)
  {
    if acts != [] {
      var init := acts[..|acts| - 1];
      var a := acts[|acts| - 1];
      var w := Run(START, init);
      assert SparesArchived(Run(START, acts[..|acts| - 1]), acts[|acts| - 1]);
      assert forall i :: 0 <= i < |init| ==> init[..i] == acts[..i];
      ReasonsReachable(init);
      forall id | id in Step(w, a).db.jobs
        ensures IsArchived(Step(w, a).db, id) || Step(w, a).db.jobs[id].archiveReason.Null?
        ensures Revivable(Step(w, a).db.jobs[id]) ==> LastArchiver(START, acts, id) == Automatic
      {
        if id in w.db.jobs {
          var e := StepEffect(w, a, id);
          SparedTransition(w, a, id, e);
        } else {
          StepFresh(w, a, id);
        }
      }
    }
  }

  /** In runs that leave archived rows alone, a re-score brings back only rows whose last archiver was automatic. */
  lemma RescoreSparesUserArchives(acts: seq<Action>, user: User, ids: seq<JobId>, threshold: int, id: JobId)
    requires RunSparesArchived(START, acts) && id in Run(START, acts).db.jobs
    requires S.UnarchiveHit(Run(START, acts).db.jobs, user, ids, threshold, id)
    ensures LastArchiver(START, acts, id) == Automatic
  {
    ReasonsReachable(acts);
  }

  /** No user move, sweep or merge touches the row. */
  predicate LeavesToMachine(acts: seq<Action>, id: JobId) {
    forall i :: 0 <= i < |acts| ==> !Releases(acts[i], id) && !MovesIn(acts[i], id)
  }

  /** Left to the automatic steps, an archived row without a revivable reason stays archived. */
  lemma {:induction false} UnrevivableStays(w: World, acts: seq<Action>, id: JobId)
    requires IsArchived(w.db, id) && !Revivable(w.db.jobs[id]) && LeavesToMachine(acts, id)
    ensures IsArchived(Run(w, acts).db, id) && !Revivable(Run(w, acts).db.jobs[id])
  {
    hide Step;
    if acts != [] {
      UnrevivableStays(w, acts[..|acts| - 1], id);
      var e := StepEffect(Run(w, acts[..|acts| - 1]), acts[|acts| - 1], id);
    }
  }

  lemma RevivableRevives(w: World, user: User, id: JobId)
    requires Owns(w.db.jobs, user, id) && IsArchived(w.db, id) && Revivable(w.db.jobs[id])
    ensures exists acts :: LeavesToMachine(acts, id) && !IsArchived(Run(w, acts).db, id)
  {
    hide Step;
    var rescore := ScoreJob(user, id, 1, EMPTY, EMPTY);
    var revive := Unarchive(user, [id], 0);
    RunOne(w, [], rescore);
    RunOne(w, [rescore], revive);
    RescoreKeepsArchive(w, user, id, 1);
    RevivesHit(Run(w, [rescore]), user, id, 0);
    assert [rescore] + [revive] == [rescore, revive] && [] + [rescore] == [rescore];
    assert LeavesToMachine([rescore, revive], id) && !IsArchived(Run(w, [rescore, revive]).db, id);
  }

  /**
   * ArchiveJob never clears archive_reason. So automatic steps alone can bring a row back that its user archived
   * exactly when the row carried a revivable reason at that moment.
   */
  lemma UserArchiveReversibleExactly(w: World, user: User, id: JobId)
    requires Owns(w.db.jobs, user, id)
    ensures var archived := Step(w, ArchiveByUser(user, id));
            (exists acts :: LeavesToMachine(acts, id) && !IsArchived(Run(archived, acts).db, id)) <==> Revivable(w.db.jobs[id])
  {
    var archived := Step(w, ArchiveByUser(user, id));
    assert Owns(archived.db.jobs, user, id) && IsArchived(archived.db, id);
    assert archived.db.jobs[id].archiveReason == w.db.jobs[id].archiveReason;
    if Revivable(w.db.jobs[id]) {
      RevivableRevives(archived, user, id);
    } else {
      forall acts | LeavesToMachine(acts, id)
        ensures IsArchived(Run(archived, acts).db, id)
      { UnrevivableStays(archived, acts, id); }
    }
  }

  /** The row's last archiver at the end is its user, and a re-score revives it all the same. */
  predicate RescoreReverses(w: World, acts: seq<Action>, user: User, id: JobId, threshold: int) {
    LastArchiver(w, acts, id) == User && IsArchived(Run(w, acts).db, id) &&
    var after := Run(w, acts + [Unarchive(user, [id], threshold)]);
    id in after.db.jobs && Is(after.db.jobs[id].status, Pending)
  }

  lemma LowScoreArchives(w: World, user: User, id: JobId, threshold: int)
    requires Owns(w.db.jobs, user, id) && Is(w.db.jobs[id].status, Pending) && w.db.jobs[id].score.Val? && w.db.jobs[id].score.v <= threshold
    ensures var after := Step(w, ArchiveLowScore(user, id, threshold)).db;
            Owns(after.jobs, user, id) && IsArchived(after, id) && after.jobs[id].archiveReason == Val(LowScore)
  {
  }

  lemma UserTakesBack(w: World, user: User, id: JobId)
    requires Owns(w.db.jobs, user, id)
    ensures var after := Step(w, SetStage(user, id, Blank)).db;
            Owns(after.jobs, user, id) && Is(after.jobs[id].status, Pending) && after.jobs[id].archiveReason == w.db.jobs[id].archiveReason
  {
  }

  lemma UserArchives(w: World, user: User, id: JobId)
    requires Owns(w.db.jobs, user, id)
    ensures var after := Step(w, ArchiveByUser(user, id)).db;
            Owns(after.jobs, user, id) && IsArchived(after, id) && after.jobs[id].archiveReason == w.db.jobs[id].archiveReason
  {
  }

  lemma RescoreKeepsArchive(w: World, user: User, id: JobId, score: int)
    requires Owns(w.db.jobs, user, id)
    ensures var after := Step(w, ScoreJob(user, id, score, EMPTY, EMPTY)).db;
            Owns(after.jobs, user, id) &&
            after.jobs[id] == w.db.jobs[id].(score := Val(score), reasoning := Val(EMPTY), scoreError := Null, updatedAt := w.db.now)
  {
  }

  lemma RevivesHit(w: World, user: User, id: JobId, threshold: int)
    requires Owns(w.db.jobs, user, id) && IsArchived(w.db, id) && Revivable(w.db.jobs[id])
    requires w.db.jobs[id].score.Val? && w.db.jobs[id].score.v > threshold
    ensures var after := Step(w, Unarchive(user, [id], threshold)).db;
            id in after.jobs && Is(after.jobs[id].status, Pending)
  {
    assert S.UnarchiveHit(w.db.jobs, user, [id], threshold, id);
  }

  /** Without the condition: auto-archived, taken back by the user, archived by the user, re-scored, revived. */
  lemma ReasonOutlivesUserMove(w: World, user: User, id: JobId, threshold: int, score: int)
    requires Owns(w.db.jobs, user, id) && Is(w.db.jobs[id].status, Pending)
    requires w.db.jobs[id].score.Val? && w.db.jobs[id].score.v <= threshold < score
    ensures RescoreReverses(w, [ArchiveLowScore(user, id, threshold), SetStage(user, id, Blank), ArchiveByUser(user, id),
                                ScoreJob(user, id, score, EMPTY, EMPTY)], user, id, threshold)
  {
    hide Step, LastArchiver, WritesArchive;
    var a1, a2 := ArchiveLowScore(user, id, threshold), SetStage(user, id, Blank);
    var a3, a4 := ArchiveByUser(user, id), ScoreJob(user, id, score, EMPTY, EMPTY);
    var w1 := Step(w, a1);
    var w2 := Step(w1, a2);
    var w3 := Step(w2, a3);
    var w4 := Step(w3, a4);
    RunOne(w, [], a1);
    RunOne(w, [a1], a2);
    RunOne(w, [a1, a2], a3);
    RunOne(w, [a1, a2, a3], a4);
    RunOne(w, [a1, a2, a3, a4], Unarchive(user, [id], threshold));
    assert [] + [a1] == [a1] && [a1] + [a2] == [a1, a2] && [a1, a2] + [a3] == [a1, a2, a3] && [a1, a2, a3] + [a4] == [a1, a2, a3, a4];
    LowScoreArchives(w, user, id, threshold);
    UserTakesBack(w1, user, id);
    UserArchives(w2, user, id);
    RescoreKeepsArchive(w3, user, id, score);
    RevivesHit(w4, user, id, threshold);
    ArchiverNext(w, [a1, a2], a3, id);
    ArchiverNext(w, [a1, a2, a3], a4, id);
    ArchiveWritten(w2, user, id);
    ScoreWritesNoArchive(w3, user, id, score);
  }

  lemma ArchiverNext(w: World, acts: seq<Action>, a: Action, id: JobId)
    ensures LastArchiver(w, acts + [a], id) ==
            if WritesArchive(Run(w, acts), a, id) then (if a.ArchiveByUser? then User else Automatic) else LastArchiver(w, acts, id)
  {
    assert (acts + [a])[..|acts|] == acts;
  }

  lemma ArchiveWritten(w: World, user: User, id: JobId)
    requires Owns(w.db.jobs, user, id)
    ensures WritesArchive(w, ArchiveByUser(user, id), id)
  {
    hide Step;
    UserArchives(w, user, id);
  }

  lemma ScoreWritesNoArchive(w: World, user: User, id: JobId, score: int)
    requires Owns(w.db.jobs, user, id) && IsArchived(w.db, id)
    ensures !WritesArchive(w, ScoreJob(user, id, score, EMPTY, EMPTY), id)
  {
    hide Step;
    RescoreKeepsArchive(w, user, id, score);
  }

  /** The reason also outlives a merge: an applied alternate lifts an auto-archived canonical row, which keeps its reason. */
  lemma ReasonOutlivesMerge(w: World, a: Action, id: JobId)
    requires IsArchived(w.db, id) && Enabled(w, a) && a.CanonicalizeOne? && a.rowId == id && a.altId != id
    requires C.Commits(w.db, a.user, a.altId, a.alt, a.res, a.rowId) && C.IsPrimaryResolution(a.res) && Owns(w.db.jobs, a.user, id)
    requires Is(a.alt.status, Applied)
    ensures var after := Step(w, a).db.jobs[id];
            Is(after.status, Applied) && after.archiveReason == w.db.jobs[id].archiveReason
  {
  }
}
