/** What becomes of a row between the transaction that reads it and the later one that writes it. */
module Gaps {
  import opened Sql
  import opened Tables
  import opened Actions
  import opened Lifecycle
  import P = Pipeline
  import C = Canonicalize

  const TERMINAL: set<Word> := {Blank, Closed, Rejected, Ghosted}

  // ---------------------------------------------------------------- which steps hit a row

  /** A merge of an alternate into row `id` that commits. */
  predicate MergesInto(w: World, a: Action, id: JobId)
  {
    a.CanonicalizeOne? && Enabled(w, a) && a.rowId == id && a.altId != id && Owns(w.db.jobs, a.user, id) &&
    C.IsPrimaryResolution(a.res) && C.Commits(w.db, a.user, a.altId, a.alt, a.res, a.rowId)
  }

  /** A canonicalization that commits and archives row `id` as the alternate. */
  predicate MergesAway(w: World, a: Action, id: JobId)
  {
    a.CanonicalizeOne? && Enabled(w, a) && a.altId == id && Owns(w.db.jobs, a.user, id) &&
    (C.IsPrimaryResolution(a.res) || a.res.status == C.Unsupported) && C.Commits(w.db, a.user, a.altId, a.alt, a.res, a.rowId)
  }

  /** A move of the user who owns the row. */
  predicate UserStages(w: World, a: Action, id: JobId)
  {
    a.SetStage? && a.id == id && Owns(w.db.jobs, a.user, id)
  }

  /** A step that ends the row's application whatever its stage: an archive by its user, or a sweep's write. */
  predicate Ends(w: World, a: Action, id: JobId)
  {
    Enabled(w, a) &&
    match a
    case ArchiveByUser(user, i) => i == id && Owns(w.db.jobs, user, id)
    case WriteGhosts(user, items) => P.Ids(items, id) && Owns(w.db.jobs, user, id) && P.AllExist(w.db.jobs, items)
    case WriteRejection(user, i, _, _) => i == id && Owns(w.db.jobs, user, id)
    case WriteClose(user, i) => i == id && Owns(w.db.jobs, user, id)
    case WriteReopen(user, i) => i == id && Owns(w.db.jobs, user, id)
    case _ => MergesAway(w, a, id)
  }

  /** The guards of the steps that take the row into the pipeline. */
  predicate TakesIn(w: World, a: Action, id: JobId)
  {
    (UserStages(w, a, id) && a.value !in TERMINAL) ||
    (MergesInto(w, a, id) && Coalesce(a.alt.status, Blank) in PIPELINE)
  }

  /** The guards of the steps that take it out. */
  predicate TakesOut(w: World, a: Action, id: JobId)
  {
    (UserStages(w, a, id) && a.value in TERMINAL) || Ends(w, a, id)
  }

  /** What AutoGhostStale selects by, its age apart: applied, and not advanced. */
  predicate AtApplied(j: Job) { Is(j.status, Applied) && Coalesce(j.stage, Applied) == Applied }

  /** The merge leaves the row applied and not advanced. */
  predicate MergesToApplied(w: World, a: Action, id: JobId)
  {
    MergesInto(w, a, id) && (Is(w.db.jobs[id].status, Applied) || Is(a.alt.status, Applied)) &&
    Coalesce(C.MergeWord(w.db.jobs[id].stage, a.alt.stage), Applied) == Applied
  }

  predicate TakesToApplied(w: World, a: Action, id: JobId)
  {
    (UserStages(w, a, id) && a.value == Applied) || MergesToApplied(w, a, id)
  }

  predicate TakesFromApplied(w: World, a: Action, id: JobId)
  {
    (UserStages(w, a, id) && a.value != Applied) || Ends(w, a, id) || (MergesInto(w, a, id) && !MergesToApplied(w, a, id))
  }

  // ---------------------------------------------------------------- one step, exactly

  /** Steps that neither log nor canonicalize never change either fact. */
  lemma QuietStep(w: World, a: Action, id: JobId)
    requires id in w.db.jobs && !Logs(a) && !a.CanonicalizeOne?
    ensures id in Step(w, a).db.jobs
    ensures InPipeline(Step(w, a).db.jobs[id]) <==> InPipeline(w.db.jobs[id])
    ensures AtApplied(Step(w, a).db.jobs[id]) <==> AtApplied(w.db.jobs[id])
  {
    hide Step;
    var e := StepEffect(w, a, id);
  }

  lemma UserStaged(w: World, a: Action, id: JobId)
    requires id in w.db.jobs && UserStages(w, a, id)
    ensures id in Logged(w.db, a).jobs && Logged(w.db, a).jobs[id] == P.Staged(w.db.jobs[id], a.value, w.db.now)
  {
  }

  /** The row is out of the pipeline, `applied` included. */
  predicate Out(j: Job) { !InPipeline(j) && !AtApplied(j) }

  lemma EndedByGhosts(w: World, a: Action, id: JobId)
    requires id in w.db.jobs && a.WriteGhosts? && Ends(w, a, id)
    ensures id in Logged(w.db, a).jobs && Out(Logged(w.db, a).jobs[id])
  {
    P.GhostAllRow(w.db, a.user, a.items, id);
  }

  lemma EndedByOne(w: World, a: Action, id: JobId)
    requires id in w.db.jobs && Logs(a) && !a.WriteGhosts? && Ends(w, a, id)
    ensures id in Logged(w.db, a).jobs && Out(Logged(w.db, a).jobs[id])
  {
    hide P.StageEvent, Enabled;
  }

  lemma Ended(w: World, a: Action, id: JobId)
    requires id in w.db.jobs && Logs(a) && Ends(w, a, id)
    ensures id in Logged(w.db, a).jobs
    ensures !InPipeline(Logged(w.db, a).jobs[id]) && !AtApplied(Logged(w.db, a).jobs[id])
  {
    hide Ends, Logged, InPipeline, AtApplied;
    if a.WriteGhosts? { EndedByGhosts(w, a, id); } else { EndedByOne(w, a, id); }
  }

  lemma LogSpares(w: World, a: Action, id: JobId)
    requires id in w.db.jobs && Logs(a) && Enabled(w, a) && !UserStages(w, a, id) && !Ends(w, a, id)
    ensures id in Logged(w.db, a).jobs && Logged(w.db, a).jobs[id] == w.db.jobs[id]
  {
    hide MergesAway, P.Staged, P.UserArchived, P.RejectedRow, P.GhostedRow, P.StageEvent;
    if a.WriteGhosts? { P.GhostAllRow(w.db, a.user, a.items, id); }
  }

  lemma LoggedRow(w: World, a: Action, id: JobId)
    requires id in w.db.jobs && Logs(a) && Enabled(w, a)
    ensures id in Logged(w.db, a).jobs
    ensures InPipeline(Logged(w.db, a).jobs[id]) <==> TakesIn(w, a, id) || (InPipeline(w.db.jobs[id]) && !TakesOut(w, a, id))
    ensures AtApplied(Logged(w.db, a).jobs[id]) <==> TakesToApplied(w, a, id) || (AtApplied(w.db.jobs[id]) && !TakesFromApplied(w, a, id))
  {
    hide Logged, Enabled, Ends;
    NeverMerges(w, a, id);
    if UserStages(w, a, id) {
      UserStaged(w, a, id);
    } else if Ends(w, a, id) {
      hide InPipeline, AtApplied;
      Ended(w, a, id);
    } else {
      hide InPipeline, AtApplied;
      LogSpares(w, a, id);
    }
  }

  lemma NeverMerges(w: World, a: Action, id: JobId)
    requires id in w.db.jobs && Logs(a)
    ensures !MergesInto(w, a, id) && (UserStages(w, a, id) ==> !Ends(w, a, id))
  {
  }

  lemma MergedIn(w: World, a: Action, id: JobId)
    requires id in w.db.jobs && MergesInto(w, a, id)
    ensures var after := C.CanonicalizeJob(w.db, a.user, a.altId, a.alt, a.res, a.rowId).jobs;
            id in after && after[id].stage == C.MergeWord(w.db.jobs[id].stage, a.alt.stage) &&
            after[id].status == Val(C.PreferredStatus(Coalesce(w.db.jobs[id].status, Blank), Coalesce(a.alt.status, Blank)))
  {
    hide C.CanonicalizeJob, C.Commits, C.MergeWord, C.PreferredStatus, Enabled;
    C.RowOf(w.db, a.user, a.altId, a.alt, a.res, a.rowId, id);
  }

  lemma MergedAway(w: World, a: Action, id: JobId)
    requires id in w.db.jobs && MergesAway(w, a, id)
    ensures var after := C.CanonicalizeJob(w.db, a.user, a.altId, a.alt, a.res, a.rowId).jobs;
            id in after && after[id].status == Val(Archived)
  {
    hide C.CanonicalizeJob, C.Commits, C.MergeWord, C.PreferredStatus, Enabled;
    C.RowOf(w.db, a.user, a.altId, a.alt, a.res, a.rowId, id);
  }

  lemma MergeSpares(w: World, a: Action, id: JobId)
    requires id in w.db.jobs && a.CanonicalizeOne? && Enabled(w, a) && !MergesInto(w, a, id) && !MergesAway(w, a, id)
    ensures var after := C.CanonicalizeJob(w.db, a.user, a.altId, a.alt, a.res, a.rowId).jobs;
            id in after && after[id] == w.db.jobs[id]
  {
    hide C.CanonicalizeJob, C.Commits, C.MergedRow, C.BackfilledRow, Enabled;
    C.RowOf(w.db, a.user, a.altId, a.alt, a.res, a.rowId, id);
  }

  lemma MergedRow(w: World, a: Action, id: JobId)
    requires id in w.db.jobs && a.CanonicalizeOne? && Enabled(w, a)
    ensures var after := C.CanonicalizeJob(w.db, a.user, a.altId, a.alt, a.res, a.rowId).jobs;
            id in after &&
            (InPipeline(after[id]) <==> TakesIn(w, a, id) || (InPipeline(w.db.jobs[id]) && !TakesOut(w, a, id))) &&
            (AtApplied(after[id]) <==> TakesToApplied(w, a, id) || (AtApplied(w.db.jobs[id]) && !TakesFromApplied(w, a, id)))
  {
    hide C.CanonicalizeJob, MergesInto, MergesAway, Enabled, C.MergeWord;
    OneRole(w, a, id);
    if MergesInto(w, a, id) {
      MergedIn(w, a, id);
    } else if MergesAway(w, a, id) {
      MergedAway(w, a, id);
    } else {
      MergeSpares(w, a, id);
    }
  }

  lemma OneRole(w: World, a: Action, id: JobId)
    requires id in w.db.jobs && a.CanonicalizeOne?
    ensures !(MergesInto(w, a, id) && MergesAway(w, a, id)) && (MergesAway(w, a, id) ==> Enabled(w, a))
  {
  }

  lemma StepMerges(w: World, a: Action)
    requires a.CanonicalizeOne? && Enabled(w, a)
    ensures Step(w, a).db == C.CanonicalizeJob(w.db, a.user, a.altId, a.alt, a.res, a.rowId)
  {
    hide NewJobs, NewReads, C.CanonicalizeJob;
  }

  lemma StepLogs(w: World, a: Action)
    requires Logs(a) && Enabled(w, a)
    ensures Step(w, a).db == Logged(w.db, a)
  {
    hide NewDb, NewReads, Logged;
    NewDbIsLogged(w.db, a);
  }

  /** After a step the row is in the pipeline exactly when the step takes it in, or it was in and is not taken out. */
  lemma PipelineStep(w: World, a: Action, id: JobId)
    requires id in w.db.jobs
    ensures id in Step(w, a).db.jobs
    ensures InPipeline(Step(w, a).db.jobs[id]) <==> TakesIn(w, a, id) || (InPipeline(w.db.jobs[id]) && !TakesOut(w, a, id))
    ensures AtApplied(Step(w, a).db.jobs[id]) <==> TakesToApplied(w, a, id) || (AtApplied(w.db.jobs[id]) && !TakesFromApplied(w, a, id))
  {
    hide Step, Logged, C.CanonicalizeJob;
    if !Enabled(w, a) {
      DisabledStep(w, a);
    } else if Logs(a) {
      StepLogs(w, a);
      LoggedRow(w, a, id);
    } else if a.CanonicalizeOne? {
      StepMerges(w, a);
      MergedRow(w, a, id);
    } else {
      QuietStep(w, a, id);
    }
  }

  lemma DisabledStep(w: World, a: Action)
    requires !Enabled(w, a)
    ensures Step(w, a) == w
  {
  }

  // ---------------------------------------------------------------- every run, exactly

  predicate InAt(w: World, id: JobId) { id in w.db.jobs && InPipeline(w.db.jobs[id]) }
  predicate LeftApplied(w: World, id: JobId) { id in w.db.jobs && !AtApplied(w.db.jobs[id]) }

  /** Some step of the run takes the row into the pipeline, and no later one takes it out. */
  ghost predicate TakenIn(w: World, acts: seq<Action>, id: JobId) {
    exists i :: 0 <= i < |acts| && TakesIn(Run(w, acts[..i]), acts[i], id) &&
                forall k :: i < k < |acts| ==> !TakesOut(Run(w, acts[..k]), acts[k], id)
  }

  /** Some step of the run moves the row away from `applied`, and no later one moves it back. */
  ghost predicate TakenFromApplied(w: World, acts: seq<Action>, id: JobId) {
    exists i :: 0 <= i < |acts| && TakesFromApplied(Run(w, acts[..i]), acts[i], id) &&
                forall k :: i < k < |acts| ==> !TakesToApplied(Run(w, acts[..k]), acts[k], id)
  }

  lemma TakenInLast(w: World, acts: seq<Action>, id: JobId)
    requires acts != []
    ensures var n := |acts| - 1;
            var last := Run(w, acts[..n]);
            TakenIn(w, acts, id) <==> TakesIn(last, acts[n], id) || (TakenIn(w, acts[..n], id) && !TakesOut(last, acts[n], id))
  {
    hide Run, TakesIn, TakesOut;
    var n := |acts| - 1;
    forall k | 0 <= k < n ensures acts[..n][..k] == acts[..k] { }
    if TakenIn(w, acts[..n], id) && !TakesOut(Run(w, acts[..n]), acts[n], id) {
      var i :| 0 <= i < n && TakesIn(Run(w, acts[..n][..i]), acts[..n][i], id) &&
               forall k :: i < k < n ==> !TakesOut(Run(w, acts[..n][..k]), acts[..n][k], id);
      assert TakesIn(Run(w, acts[..i]), acts[i], id);
      forall k | i < k < |acts| ensures !TakesOut(Run(w, acts[..k]), acts[k], id) {
        if k < n { assert !TakesOut(Run(w, acts[..n][..k]), acts[..n][k], id); }
      }
    }
    if TakenIn(w, acts, id) && !TakesIn(Run(w, acts[..n]), acts[n], id) {
      var i :| 0 <= i < |acts| && TakesIn(Run(w, acts[..i]), acts[i], id) &&
               forall k :: i < k < |acts| ==> !TakesOut(Run(w, acts[..k]), acts[k], id);
      assert TakesIn(Run(w, acts[..n][..i]), acts[..n][i], id);
      forall k | i < k < n ensures !TakesOut(Run(w, acts[..n][..k]), acts[..n][k], id) {
        assert !TakesOut(Run(w, acts[..k]), acts[k], id);
      }
    }
  }

  lemma TakenFromAppliedLast(w: World, acts: seq<Action>, id: JobId)
    requires acts != []
    ensures var n := |acts| - 1;
            var last := Run(w, acts[..n]);
            TakenFromApplied(w, acts, id) <==> TakesFromApplied(last, acts[n], id) || (TakenFromApplied(w, acts[..n], id) && !TakesToApplied(last, acts[n], id))
  {
    hide Run, TakesFromApplied, TakesToApplied;
    var n := |acts| - 1;
    forall k | 0 <= k < n ensures acts[..n][..k] == acts[..k] { }
    if TakenFromApplied(w, acts[..n], id) && !TakesToApplied(Run(w, acts[..n]), acts[n], id) {
      var i :| 0 <= i < n && TakesFromApplied(Run(w, acts[..n][..i]), acts[..n][i], id) &&
               forall k :: i < k < n ==> !TakesToApplied(Run(w, acts[..n][..k]), acts[..n][k], id);
      assert TakesFromApplied(Run(w, acts[..i]), acts[i], id);
      forall k | i < k < |acts| ensures !TakesToApplied(Run(w, acts[..k]), acts[k], id) {
        if k < n { assert !TakesToApplied(Run(w, acts[..n][..k]), acts[..n][k], id); }
      }
    }
    if TakenFromApplied(w, acts, id) && !TakesFromApplied(Run(w, acts[..n]), acts[n], id) {
      var i :| 0 <= i < |acts| && TakesFromApplied(Run(w, acts[..i]), acts[i], id) &&
               forall k :: i < k < |acts| ==> !TakesToApplied(Run(w, acts[..k]), acts[k], id);
      assert TakesFromApplied(Run(w, acts[..n][..i]), acts[..n][i], id);
      forall k | i < k < n ensures !TakesToApplied(Run(w, acts[..n][..k]), acts[..n][k], id) {
        assert !TakesToApplied(Run(w, acts[..k]), acts[k], id);
      }
    }
  }

  /** A row outside the pipeline is in it after a run exactly when the run takes it in for good. */
  lemma {:induction false} PipelineRun(w: World, acts: seq<Action>, id: JobId)
    requires id in w.db.jobs && !InPipeline(w.db.jobs[id])
    ensures InAt(Run(w, acts), id) <==> TakenIn(w, acts, id)
  {
    hide Step, TakesIn, TakesOut, TakesToApplied, TakesFromApplied, InPipeline, AtApplied;
    if acts != [] {
      hide TakenIn;
      var n := |acts| - 1;
      PipelineRun(w, acts[..n], id);
      RowsStay(w, acts[..n], id);
      PipelineStep(Run(w, acts[..n]), acts[n], id);
      TakenInLast(w, acts, id);
    }
  }

  lemma OneDirection(w: World, a: Action, id: JobId)
    ensures !(TakesToApplied(w, a, id) && TakesFromApplied(w, a, id))
  {
  }

  /** A row at `applied` has left it after a run exactly when the run moves it away for good. */
  lemma {:induction false} AppliedRun(w: World, acts: seq<Action>, id: JobId)
    requires id in w.db.jobs && AtApplied(w.db.jobs[id])
    ensures LeftApplied(Run(w, acts), id) <==> TakenFromApplied(w, acts, id)
  {
    hide Step, TakesIn, TakesOut, TakesToApplied, TakesFromApplied, InPipeline, AtApplied;
    if acts != [] {
      hide TakenFromApplied;
      var n := |acts| - 1;
      AppliedRun(w, acts[..n], id);
      RowsStay(w, acts[..n], id);
      PipelineStep(Run(w, acts[..n]), acts[n], id);
      OneDirection(Run(w, acts[..n]), acts[n], id);
      TakenFromAppliedLast(w, acts, id);
    }
  }

  // ---------------------------------------------------------------- what is read stays in flight

  lemma {:induction false} RowsAndReadsStay(w: World, acts: seq<Action>, user: User, id: JobId)
    requires Owns(w.db.jobs, user, id)
    ensures Owns(Run(w, acts).db.jobs, user, id) && w.inFlight <= Run(w, acts).inFlight
  {
    hide NewDb, NewReads, Enabled;
    if acts != [] {
      RowsAndReadsStay(w, acts[..|acts| - 1], user, id);
      var e := StepEffect(Run(w, acts[..|acts| - 1]), acts[|acts| - 1], id);
    }
  }

  // ---------------------------------------------------------------- the closed check

  lemma CloseLands(w: World, user: User, id: JobId)
    requires Owns(w.db.jobs, user, id) && CloseRead(user, id) in w.inFlight
    ensures var written := Step(w, WriteClose(user, id));
            Owns(written.db.jobs, user, id) && Is(written.db.jobs[id].status, Closed) && Is(written.db.jobs[id].stage, Closed)
  {
  }

  lemma CloseIsRead(w: World, user: User, id: JobId)
    requires id in w.db.jobs && P.CloseCandidate(w.db.jobs[id], user)
    ensures var read := Step(w, ReadCloseChecks(user)); read.db == w.db && CloseRead(user, id) in read.inFlight
  {
  }

  /**
   * The closed check reads its candidates at `w` and writes after `acts`. The write closes the row in any case, and it
   * hits a row that is in the pipeline by then exactly when a step in between took the row in and none took it out again.
   */
  lemma SplitCloseExact(w: World, acts: seq<Action>, user: User, id: JobId)
    requires id in w.db.jobs && P.CloseCandidate(w.db.jobs[id], user)
    ensures var read := Step(w, ReadCloseChecks(user));
            var before := Run(read, acts);
            var after := Step(before, WriteClose(user, id));
            id in after.db.jobs && Is(after.db.jobs[id].status, Closed) &&
            (InAt(before, id) <==> TakenIn(read, acts, id))
  {
    hide Step, TakenIn;
    CloseIsRead(w, user, id);
    var read := Step(w, ReadCloseChecks(user));
    RowsAndReadsStay(read, acts, user, id);
    PipelineRun(read, acts, id);
    CloseLands(Run(read, acts), user, id);
  }

  /** Without such a step the closed check never closes a row in the pipeline. */
  lemma SplitCloseSafe(w: World, acts: seq<Action>, user: User, id: JobId)
    requires id in w.db.jobs && P.CloseCandidate(w.db.jobs[id], user)
    requires forall i :: 0 <= i < |acts| ==> !MovesIn(acts[i], id)
    ensures id in Run(w, acts).db.jobs && !InPipeline(Run(w, acts).db.jobs[id])
  {
    hide Step;
    RowsStay(w, acts, id);
    PipelineRun(w, acts, id);
  }

  /** One user move is enough: the row that the user just advanced ends closed. */
  lemma SplitCloseLosesMove(w: World, user: User, id: JobId, value: Word)
    requires id in w.db.jobs && P.CloseCandidate(w.db.jobs[id], user) && value !in TERMINAL
    ensures var moved := Run(Step(w, ReadCloseChecks(user)), [SetStage(user, id, value)]);
            var written := Step(moved, WriteClose(user, id));
            InAt(moved, id) && id in written.db.jobs && Is(written.db.jobs[id].status, Closed)
  {
    hide Step;
    CloseIsRead(w, user, id);
    var read := Step(w, ReadCloseChecks(user));
    var acts := [SetStage(user, id, value)];
    assert TakesIn(Run(read, acts[..0]), acts[0], id) by { assert acts[..0] == []; }
    SplitCloseExact(w, acts, user, id);
  }

  // ---------------------------------------------------------------- reopening

  lemma ReopenLands(w: World, user: User, id: JobId)
    requires Owns(w.db.jobs, user, id) && ReopenRead(user, id) in w.inFlight
    ensures var written := Step(w, WriteReopen(user, id));
            id in written.db.jobs && Is(written.db.jobs[id].status, Pending) && written.db.jobs[id].stage.Null?
  {
  }

  lemma ReopenIsRead(w: World, user: User, id: JobId)
    requires id in w.db.jobs && P.ReopenCandidate(w.db.jobs[id], user)
    ensures var read := Step(w, ReadReopens(user)); read.db == w.db && ReopenRead(user, id) in read.inFlight
  {
  }

  /**
   * Reopening reads the closed rows at `w` and writes after `acts`. The write puts the row back to pending in any case, and
   * it takes an application away exactly when a step in between took the row into the pipeline and none took it out again.
   */
  lemma SplitReopenExact(w: World, acts: seq<Action>, user: User, id: JobId)
    requires id in w.db.jobs && P.ReopenCandidate(w.db.jobs[id], user)
    ensures var read := Step(w, ReadReopens(user));
            var before := Run(read, acts);
            var after := Step(before, WriteReopen(user, id));
            id in after.db.jobs && Is(after.db.jobs[id].status, Pending) && after.db.jobs[id].stage.Null? &&
            (InAt(before, id) <==> TakenIn(read, acts, id))
  {
    hide Step, TakenIn;
    ReopenIsRead(w, user, id);
    var read := Step(w, ReadReopens(user));
    RowsAndReadsStay(read, acts, user, id);
    PipelineRun(read, acts, id);
    ReopenLands(Run(read, acts), user, id);
  }

  // ---------------------------------------------------------------- AutoGhostStale

  predicate AllRead(items: seq<P.GhostItem>, w: World, user: User, days: int) {
    forall i :: 0 <= i < |items| ==> items[i] in P.GhostItems(w.db.jobs, user, days, w.db.now)
  }

  lemma GhostsAreRead(w: World, user: User, days: int, items: seq<P.GhostItem>)
    requires AllRead(items, w, user, days)
    ensures var read := Step(w, ReadGhosts(user, days));
            read.db == w.db && forall i :: 0 <= i < |items| ==> GhostRead(user, items[i]) in read.inFlight
  {
  }

  lemma GhostsLand(w: World, user: User, items: seq<P.GhostItem>, id: JobId)
    requires Owns(w.db.jobs, user, id) && P.Ids(items, id) && P.AllExist(w.db.jobs, items) && Enabled(w, WriteGhosts(user, items))
    ensures var written := Step(w, WriteGhosts(user, items));
            id in written.db.jobs && Is(written.db.jobs[id].status, Ghosted) && Is(written.db.jobs[id].stage, Ghosted)
  {
    hide Enabled;
    P.GhostAllRow(w.db, user, items, id);
  }

  /**
   * AutoGhostStale selects at `w` and writes after `acts`. Each selected row ends ghosted in any case, and it had left
   * `status = applied`, `stage` NULL or `applied` by then exactly when a step in between moved it away and none moved it back.
   */
  lemma SplitGhostExact(w: World, acts: seq<Action>, user: User, days: int, items: seq<P.GhostItem>, id: JobId)
    requires AllRead(items, w, user, days) && P.Ids(items, id)
    ensures var read := Step(w, ReadGhosts(user, days));
            var before := Run(read, acts);
            var after := Step(before, WriteGhosts(user, items));
            id in after.db.jobs && Is(after.db.jobs[id].status, Ghosted) &&
            (LeftApplied(before, id) <==> TakenFromApplied(read, acts, id))
  {
    hide Step, TakenFromApplied;
    GhostsAreRead(w, user, days, items);
    var read := Step(w, ReadGhosts(user, days));
    forall i | 0 <= i < |items|
      ensures Owns(Run(read, acts).db.jobs, user, items[i].id) && GhostRead(user, items[i]) in Run(read, acts).inFlight
    {
      assert items[i] in P.GhostItems(w.db.jobs, user, days, w.db.now);
      RowsAndReadsStay(read, acts, user, items[i].id);
    }
    var i :| 0 <= i < |items| && items[i].id == id;
    assert items[i] in P.GhostItems(w.db.jobs, user, days, w.db.now);
    AppliedRun(read, acts, id);
    GhostsLand(Run(read, acts), user, items, id);
  }

  /** One user move is enough: a row advanced to a later stage after the select is ghosted all the same. */
  lemma SplitGhostLosesMove(w: World, user: User, id: JobId, days: int, value: Word)
    requires id in w.db.jobs && P.GhostHit(w.db.jobs[id], user, days, w.db.now) && value != Applied
    ensures var item := P.GhostItem(id, Coalesce(w.db.jobs[id].stage, Blank));
            var moved := Run(Step(w, ReadGhosts(user, days)), [SetStage(user, id, value)]);
            var written := Step(moved, WriteGhosts(user, [item]));
            LeftApplied(moved, id) && id in written.db.jobs && Is(written.db.jobs[id].status, Ghosted)
  {
    hide Step;
    var item := P.GhostItem(id, Coalesce(w.db.jobs[id].stage, Blank));
    GhostsAreRead(w, user, days, []);
    var read := Step(w, ReadGhosts(user, days));
    var acts := [SetStage(user, id, value)];
    assert TakesFromApplied(Run(read, acts[..0]), acts[0], id) by { assert acts[..0] == []; }
    assert P.Ids([item], id) by { assert [item][0].id == id; }
    SplitGhostExact(w, acts, user, days, [item], id);
  }

  // ---------------------------------------------------------------- canonicalization

  predicate AlternateHit(j: Job, user: User, onlyPending: bool) {
    j.user == user && !IsPrimary(j) && (onlyPending ==> Is(j.status, Pending))
  }

  lemma AlternateIsRead(w: World, user: User, altId: JobId, onlyPending: bool)
    requires altId in w.db.jobs && AlternateHit(w.db.jobs[altId], user, onlyPending)
    ensures var read := Step(w, ReadAlternates(user, onlyPending));
            read.db == w.db && AlternateRead(user, altId, w.db.jobs[altId]) in read.inFlight
  {
  }

  lemma FoldedIn(jobs: Jobs, user: User, rowId: JobId, r: C.ResolvedJob, alt: Job, now: int)
    requires rowId in C.FoldedJobs(jobs, user, rowId, r, alt, now)
    ensures InPipeline(C.FoldedJobs(jobs, user, rowId, r, alt, now)[rowId]) <==>
              (rowId in jobs && InPipeline(jobs[rowId])) || (InPipeline(alt) && (rowId in jobs ==> jobs[rowId].user == user))
    ensures forall k :: k in jobs && k != rowId ==> k in C.FoldedJobs(jobs, user, rowId, r, alt, now) && C.FoldedJobs(jobs, user, rowId, r, alt, now)[k] == jobs[k]
  {
    hide C.NullIfBlank, C.NullIfBlankWord, C.Backfilled, C.MergeText, C.MergeNumber, C.EarliestDate, C.MergeWord, C.FirstNonEmpty;
  }

  /** The canonical row is in the pipeline exactly when it was, or the alternate as it was read. */
  lemma CanonicalRow(db: Db, user: User, altId: JobId, alt: Job, res: C.Resolution, rowId: JobId)
    requires C.IsPrimaryResolution(res) && C.Commits(db, user, altId, alt, res, rowId) && rowId != altId && Owns(db.jobs, user, altId)
    ensures var after := C.CanonicalizeJob(db, user, altId, alt, res, rowId).jobs;
            altId in after && Is(after[altId].status, Archived) && rowId in after &&
            (InPipeline(after[rowId]) <==>
               (rowId in db.jobs && InPipeline(db.jobs[rowId])) || (InPipeline(alt) && (rowId in db.jobs ==> db.jobs[rowId].user == user)))
  {
    hide C.RekeyEvents, C.RekeyRejections, C.FoldedJobs, C.ResolutionEvent, InPipeline;
    FoldedIn(db.jobs, user, rowId, res.job.v, alt, db.now);
  }

  /**
   * Canonicalization reads the alternate at `w` and merges that copy after `acts`; the alternate ends archived. When it was
   * read outside the pipeline, an application begun on it in between is lost exactly when a step took it in, none took it
   * out again, and the canonical row is not itself in the pipeline at the write.
   */
  lemma SplitCanonicalizeExact(w: World, acts: seq<Action>, user: User, altId: JobId, onlyPending: bool, res: C.Resolution, rowId: JobId)
    requires altId in w.db.jobs && AlternateHit(w.db.jobs[altId], user, onlyPending) && !InPipeline(w.db.jobs[altId])
    requires C.IsPrimaryResolution(res) && rowId != altId
    requires C.Commits(Run(Step(w, ReadAlternates(user, onlyPending)), acts).db, user, altId, w.db.jobs[altId], res, rowId)
    ensures var read := Step(w, ReadAlternates(user, onlyPending));
            var before := Run(read, acts);
            var after := Step(before, CanonicalizeOne(user, altId, w.db.jobs[altId], res, rowId));
            altId in after.db.jobs && Is(after.db.jobs[altId].status, Archived) &&
            ((InAt(before, altId) && !InAt(after, rowId)) <==> (TakenIn(read, acts, altId) && !InAt(before, rowId)))
  {
    hide Step, TakenIn, C.CanonicalizeJob, C.Commits;
    AlternateIsRead(w, user, altId, onlyPending);
    var read := Step(w, ReadAlternates(user, onlyPending));
    var a := CanonicalizeOne(user, altId, w.db.jobs[altId], res, rowId);
    RowsAndReadsStay(read, acts, user, altId);
    PipelineRun(read, acts, altId);
    StepMerges(Run(read, acts), a);
    CanonicalRow(Run(read, acts).db, user, altId, w.db.jobs[altId], res, rowId);
  }

  /** And an application that the alternate was read with reaches the canonical row even if it was ended in between. */
  lemma SplitCanonicalizeRevives(w: World, acts: seq<Action>, user: User, altId: JobId, onlyPending: bool, res: C.Resolution, rowId: JobId)
    requires altId in w.db.jobs && AlternateHit(w.db.jobs[altId], user, onlyPending) && InPipeline(w.db.jobs[altId])
    requires C.IsPrimaryResolution(res) && rowId != altId
    requires var db := Run(Step(w, ReadAlternates(user, onlyPending)), acts).db;
             C.Commits(db, user, altId, w.db.jobs[altId], res, rowId) && (rowId in db.jobs ==> db.jobs[rowId].user == user)
    ensures InAt(Step(Run(Step(w, ReadAlternates(user, onlyPending)), acts), CanonicalizeOne(user, altId, w.db.jobs[altId], res, rowId)), rowId)
  {
    hide Step, C.CanonicalizeJob, C.Commits;
    AlternateIsRead(w, user, altId, onlyPending);
    var read := Step(w, ReadAlternates(user, onlyPending));
    RowsAndReadsStay(read, acts, user, altId);
    StepMerges(Run(read, acts), CanonicalizeOne(user, altId, w.db.jobs[altId], res, rowId));
    CanonicalRow(Run(read, acts).db, user, altId, w.db.jobs[altId], res, rowId);
  }
}
