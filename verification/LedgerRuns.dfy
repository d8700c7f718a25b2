/** The score-batch ledger over every interleaving of creates, applies, closes and all other transactions. */
module LedgerRuns {
  import opened Sql
  import opened Tables
  import opened Actions
  import B = ScoreBatch
  import P = Pipeline
  import C = Canonicalize

  predicate TouchesLedger(a: Action) { a.CreateBatch? || a.CloseBatch? || a.ApplyBatch? }

  predicate SameLedger(db: Db, after: Db) {
    after.batches == db.batches && after.members == db.members && after.usage == db.usage && after.now == db.now
  }

  lemma LoggedKeepsLedger(db: Db, a: Action)
    requires Logs(a)
    ensures SameLedger(db, Logged(db, a))
  {
    hide P.Staged, P.UserArchived, P.RejectedRow, P.StageEvent;
    if a.WriteGhosts? { GhostsKeepLedger(db, a.user, a.items); }
  }

  lemma CanonicalizeKeepsLedger(db: Db, a: Action)
    requires a.CanonicalizeOne?
    ensures SameLedger(db, C.CanonicalizeJob(db, a.user, a.altId, a.alt, a.res, a.rowId))
  {
    hide C.Commits, C.FoldedJobs, C.Aliased, C.RekeyEvents, C.RekeyRejections, C.ArchiveAlternate, C.ResolutionEvent;
  }

  lemma NewDbKeepsLedger(db: Db, a: Action)
    requires !TouchesLedger(a) && !a.Tick? && !a.RecordUsage?
    ensures SameLedger(db, NewDb(db, a))
  {
    hide NewJobs, Logged, C.CanonicalizeJob, P.SetPipelineStage, P.ArchiveJob, P.GhostWrite, P.RejectWrite, B.CreateBatch, B.CloseBatch, B.ApplyBatch;
    if Logs(a) {
      NewDbIsLogged(db, a);
      LoggedKeepsLedger(db, a);
    } else if a.CanonicalizeOne? {
      CanonicalizeKeepsLedger(db, a);
    } else {
      NewDbIsNewJobs(db, a);
    }
  }

  lemma OtherStepsKeepLedger(w: World, a: Action)
    requires !TouchesLedger(a)
    ensures Step(w, a).db.batches == w.db.batches && Step(w, a).db.members == w.db.members
    ensures Step(w, a).db.now >= w.db.now
  {
    hide NewJobs, NewReads, Enabled, C.CanonicalizeJob, P.SetPipelineStage, P.ArchiveJob, P.GhostWrite, P.RejectWrite;
    if !a.Tick? && !a.RecordUsage? { NewDbKeepsLedger(w.db, a); }
  }

  lemma {:induction false} GhostsKeepLedger(db: Db, user: User, items: seq<P.GhostItem>)
    ensures var after := P.GhostAll(db, user, items);
            after.batches == db.batches && after.members == db.members && after.usage == db.usage && after.now == db.now
  {
    if items != [] { GhostsKeepLedger(db, user, items[..|items| - 1]); }
  }

  /** The clock never goes back. */
  lemma LaterNow(w: World, a: Action)
    ensures Step(w, a).db.now >= w.db.now
  {
    hide NewJobs, NewReads, Enabled, C.CanonicalizeJob, P.SetPipelineStage, P.ArchiveJob, P.GhostWrite, P.RejectWrite;
    if !TouchesLedger(a) { OtherStepsKeepLedger(w, a); }
  }

  lemma LedgerStep(w: World, a: Action)
    requires B.LedgerInv(w.db)
    ensures B.LedgerInv(Step(w, a).db) && Step(w, a).db.now >= w.db.now
  {
    hide NewJobs, NewReads, C.CanonicalizeJob, P.SetPipelineStage, P.ArchiveJob, P.GhostWrite, P.RejectWrite;
    if Enabled(w, a) {
      match a {
        case CreateBatch(key, model, hash, ids) => B.CreateKeepsLedger(w.db, key, model, hash, ids);
        case CloseBatch(key, state, error) =>
          if B.IsOpen(w.db, key) { B.EndKeepsLedger(w.db, key, state, Nullable(error)); }
        case ApplyBatch(key, ws, threshold, model, delta, date) =>
          if B.IsOpen(w.db, key) { B.EndKeepsLedger(w.db, key, Succeeded, Null); }
        case _ => OtherStepsKeepLedger(w, a);
      }
    }
  }

  lemma {:induction false} LedgerOverRun(w: World, acts: seq<Action>)
    requires B.LedgerInv(w.db)
    ensures B.LedgerInv(Run(w, acts).db) && Run(w, acts).db.now >= w.db.now
  {
    if acts != [] {
      LedgerOverRun(w, acts[..|acts| - 1]);
      LedgerStep(Run(w, acts[..|acts| - 1]), acts[|acts| - 1]);
    }
  }

  /** In every reachable state a batch has member rows exactly while it is `submitted`, and then exactly job_count of them. */
  lemma ReachableMembers(acts: seq<Action>, key: BatchKey)
    requires key in Run(START, acts).db.batches
    ensures var db := Run(START, acts).db;
            (B.MembersOf(db.members, key) != {} <==> db.batches[key].state == Submitted) &&
            |B.MembersOf(db.members, key)| == if db.batches[key].state == Submitted then db.batches[key].jobCount else 0
  {
    LedgerOverRun(START, acts);
    B.MembersIffOpen(Run(START, acts).db, key);
  }

  // ---------------------------------------------------------------- a batch leaves `submitted` at most once

  /** Batches are never deleted; a closed one never changes again, an open one keeps what was submitted. */
  lemma BatchStep(w: World, a: Action, key: BatchKey)
    requires key in w.db.batches
    ensures key in Step(w, a).db.batches
    ensures w.db.batches[key].state != Submitted ==> Step(w, a).db.batches[key] == w.db.batches[key]
    ensures var b, c := w.db.batches[key], Step(w, a).db.batches[key];
            c.model == b.model && c.resumeHash == b.resumeHash && c.jobCount == b.jobCount && c.createdAt == b.createdAt
  {
    hide NewJobs, NewReads, Enabled, C.CanonicalizeJob, P.SetPipelineStage, P.ArchiveJob, P.GhostWrite, P.RejectWrite;
    if !TouchesLedger(a) { OtherStepsKeepLedger(w, a); }
  }

  lemma {:induction false} ClosedStaysClosed(w: World, acts: seq<Action>, key: BatchKey)
    requires key in w.db.batches && w.db.batches[key].state != Submitted
    ensures key in Run(w, acts).db.batches && Run(w, acts).db.batches[key] == w.db.batches[key]
  {
    if acts != [] {
      ClosedStaysClosed(w, acts[..|acts| - 1], key);
      BatchStep(Run(w, acts[..|acts| - 1]), acts[|acts| - 1], key);
    }
  }

  predicate Leaves(w: World, a: Action, key: BatchKey) {
    B.IsOpen(w.db, key) && !B.IsOpen(Step(w, a).db, key)
  }

  /** How often the batch leaves `submitted` in a run. */
  function TimesLeft(w: World, acts: seq<Action>, key: BatchKey): nat {
    if acts == [] then 0
    else
      var init := acts[..|acts| - 1];
      TimesLeft(w, init, key) + if Leaves(Run(w, init), acts[|acts| - 1], key) then 1 else 0
  }

  /** A batch leaves `submitted` at most once, and exactly once when it was open and ends terminal. */
  lemma {:induction false} LeavesOnce(w: World, acts: seq<Action>, key: BatchKey)
    requires key in w.db.batches
    ensures key in Run(w, acts).db.batches
    ensures TimesLeft(w, acts, key) == if B.IsOpen(w.db, key) && !B.IsOpen(Run(w, acts).db, key) then 1 else 0
  {
    if acts != [] {
      LeavesOnce(w, acts[..|acts| - 1], key);
      if !B.IsOpen(w.db, key) { ClosedStaysClosed(w, acts[..|acts| - 1], key); }
      BatchStep(Run(w, acts[..|acts| - 1]), acts[|acts| - 1], key);
    }
  }

  // ---------------------------------------------------------------- exactly-once usage

  /** The step claims the batch: this poller's UPDATE hit the row. */
  predicate Claims(w: World, a: Action) { a.ApplyBatch? && B.IsOpen(w.db, a.key) }

  /** What a step owes to one field of one usage row: a recorded call, or the tenant row and the host row of a claimed batch. */
  function Owed(w: World, a: Action, key: UsageKey, f: B.Field): int {
    if a.RecordUsage? then
      if key == UsageKey(a.uid, a.date, a.model) then B.FieldOf(a.delta, f) else 0
    else if Claims(w, a) && a.delta.calls > 0 then
      (if key == UsageKey(a.key.user, a.date, a.model) then B.FieldOf(a.delta, f) else 0) +
      (if key == UsageKey(HOST_KEY_USER, a.date, a.model) then B.FieldOf(a.delta, f) else 0)
    else 0
  }

  function TotalOwed(w: World, acts: seq<Action>, key: UsageKey, f: B.Field): int {
    if acts == [] then 0
    else
      var init := acts[..|acts| - 1];
      TotalOwed(w, init, key, f) + Owed(Run(w, init), acts[|acts| - 1], key, f)
  }

  lemma UsageKept(w: World, a: Action)
    requires !a.RecordUsage? && !a.ApplyBatch?
    ensures Step(w, a).db.usage == w.db.usage
  {
    hide NewJobs, NewReads, Enabled, C.CanonicalizeJob, P.SetPipelineStage, P.ArchiveJob, P.GhostWrite, P.RejectWrite;
    if !a.Tick? && !TouchesLedger(a) { NewDbKeepsLedger(w.db, a); }
  }

  lemma StepUsage(w: World, a: Action)
    ensures Step(w, a).db.usage ==
            if Claims(w, a) then B.AddBatchUsage(w.db.usage, a.key.user, a.date, a.model, a.delta)
            else if a.RecordUsage? then B.AddUsage(w.db.usage, UsageKey(a.uid, a.date, a.model), a.delta)
            else w.db.usage
  {
    hide NewJobs, NewReads, C.CanonicalizeJob, P.SetPipelineStage, P.ArchiveJob, P.GhostWrite, P.RejectWrite, B.AddUsage, B.AddBatchUsage;
    if !a.RecordUsage? && !a.ApplyBatch? { UsageKept(w, a); }
  }

  lemma UsageStep(w: World, a: Action, key: UsageKey, f: B.Field)
    ensures B.Balance(Step(w, a).db.usage, key, f) == B.Balance(w.db.usage, key, f) + Owed(w, a, key, f)
  {
    hide Step;
    StepUsage(w, a);
    if Claims(w, a) {
      B.BatchUsageBalance(w.db.usage, a.key.user, a.date, a.model, a.delta, key, f);
    } else if a.RecordUsage? {
      B.AddUsageBalance(w.db.usage, UsageKey(a.uid, a.date, a.model), a.delta, key, f);
    }
  }

  /**
   * Calls, prompt, cached prompt, candidate and total tokens of every usage row: each is the number it started from plus
   * the sum of what the claimed batches and the recorded calls owe it.
   */
  lemma {:induction false} UsageIsExact(w: World, acts: seq<Action>, key: UsageKey, f: B.Field)
    ensures B.Balance(Run(w, acts).db.usage, key, f) == B.Balance(w.db.usage, key, f) + TotalOwed(w, acts, key, f)
  {
    if acts != [] {
      UsageIsExact(w, acts[..|acts| - 1], key, f);
      UsageStep(Run(w, acts[..|acts| - 1]), acts[|acts| - 1], key, f);
    }
  }

  /** A row that is there stays, and a new one is there only when something was owed to it. */
  lemma UsageRows(w: World, a: Action, key: UsageKey)
    ensures key in Step(w, a).db.usage <==>
              key in w.db.usage || (a.RecordUsage? && key == UsageKey(a.uid, a.date, a.model)) ||
              (Claims(w, a) && a.delta.calls > 0 && key in {UsageKey(a.key.user, a.date, a.model), UsageKey(HOST_KEY_USER, a.date, a.model)})
  {
    hide Step;
    StepUsage(w, a);
  }

  /** A batch that was ended, by a close or by another poller, is never claimed again and owes nothing more. */
  lemma EndedBatchOwesNothing(w: World, acts: seq<Action>, i: nat, key: UsageKey, f: B.Field)
    requires i < |acts| && acts[i].ApplyBatch? && acts[i].key in w.db.batches && !B.IsOpen(w.db, acts[i].key)
    ensures !Claims(Run(w, acts[..i]), acts[i]) && Owed(Run(w, acts[..i]), acts[i], key, f) == 0
  {
    ClosedStaysClosed(w, acts[..i], acts[i].key);
  }

  /** Two claims of one batch never both happen: the second poller finds it ended. */
  lemma ClaimedOnce(w: World, acts: seq<Action>, i: nat, j: nat)
    requires i < j < |acts| && acts[i].ApplyBatch? && acts[j].ApplyBatch? && acts[i].key == acts[j].key
    requires Claims(Run(w, acts[..i]), acts[i])
    ensures !Claims(Run(w, acts[..j]), acts[j])
  {
    var mid := Run(w, acts[..i + 1]);
    assert acts[..i + 1][..i] == acts[..i];
    assert !B.IsOpen(mid.db, acts[i].key) && acts[i].key in mid.db.batches;
    RunSplit(w, acts[..i + 1], acts[i + 1..j]);
    assert acts[..i + 1] + acts[i + 1..j] == acts[..j];
    ClosedStaysClosed(mid, acts[i + 1..j], acts[i].key);
  }

  lemma {:induction false} RunSplit(w: World, first: seq<Action>, second: seq<Action>)
    ensures Run(w, first + second) == Run(Run(w, first), second)
  {
    if second == [] {
      assert first + second == first;
    } else {
      var n := |second| - 1;
      RunSplit(w, first, second[..n]);
      assert (first + second)[..|first + second| - 1] == first + second[..n];
    }
  }

  // ---------------------------------------------------------------- the daily gate

  function JobsSubmitted(w: World, a: Action, since: int): nat {
    if a.CreateBatch? && B.CanCreate(w.db, a.key, a.ids) && w.db.now >= since then |a.ids| else 0
  }

  /** The daily job gate counts every submitted job once, however its batch ended. */
  lemma GateStep(w: World, a: Action, since: int)
    ensures B.SumBatchJobs(Step(w, a).db.batches, since) == B.SumBatchJobs(w.db.batches, since) + JobsSubmitted(w, a, since)
  {
    hide NewJobs, NewReads, B.SumBatchJobs, C.CanonicalizeJob, P.SetPipelineStage, P.ArchiveJob, P.GhostWrite, P.RejectWrite;
    match a {
      case CreateBatch(key, model, hash, ids) => B.CreateAddsToGate(w.db, key, model, hash, ids, since);
      case CloseBatch(key, state, error) =>
        if B.IsOpen(w.db, key) { B.EndKeepsGate(w.db, key, state, Nullable(error), since); }
      case ApplyBatch(key, ws, threshold, model, delta, date) =>
        if B.IsOpen(w.db, key) { B.EndKeepsGate(w.db, key, Succeeded, Null, since); }
      case _ => OtherStepsKeepLedger(w, a);
    }
  }

  function JobsSubmittedOver(w: World, acts: seq<Action>, since: int): nat {
    if acts == [] then 0
    else JobsSubmittedOver(w, acts[..|acts| - 1], since) + JobsSubmitted(Run(w, acts[..|acts| - 1]), acts[|acts| - 1], since)
  }

  lemma {:induction false} GateOverRun(w: World, acts: seq<Action>, since: int)
    ensures B.SumBatchJobs(Run(w, acts).db.batches, since) == B.SumBatchJobs(w.db.batches, since) + JobsSubmittedOver(w, acts, since)
  {
    if acts != [] {
      GateOverRun(w, acts[..|acts| - 1], since);
      GateStep(Run(w, acts[..|acts| - 1]), acts[|acts| - 1], since);
    }
  }

  // ---------------------------------------------------------------- hidden rows come back

  /** No step of the run submits row `id` again. */
  predicate NotResubmitted(acts: seq<Action>, user: User, id: JobId) {
    forall i :: 0 <= i < |acts| && acts[i].CreateBatch? && acts[i].key.user == user ==> id !in acts[i].ids
  }

  /** Members of a row are only added by submitting it. */
  lemma MemberStep(w: World, a: Action, m: Member)
    requires m in Step(w, a).db.members
    ensures m in w.db.members || (a.CreateBatch? && a.key == m.batch && m.job in a.ids)
  {
    hide NewJobs, NewReads;
    if !TouchesLedger(a) { OtherStepsKeepLedger(w, a); }
  }

  lemma {:induction false} HoldersAreOld(w: World, acts: seq<Action>, user: User, id: JobId, m: Member)
    requires B.LedgerInv(w.db) && NotResubmitted(acts, user, id)
    requires m in Run(w, acts).db.members && m.job == id && m.batch.user == user
    ensures m in w.db.members && m.batch in Run(w, acts).db.batches
    ensures Run(w, acts).db.batches[m.batch].createdAt <= w.db.now
  {
    if acts != [] {
      var init := acts[..|acts| - 1];
      MemberStep(Run(w, init), acts[|acts| - 1], m);
      HoldersAreOld(w, init, user, id, m);
      BatchStep(Run(w, init), acts[|acts| - 1], m.batch);
    }
  }

  /**
   * Self-healing. Whatever happens or fails to happen in between, 72 hours after any state a scorable, described,
   * unscored row is back in the pool, unless it was submitted again meanwhile.
   */
  lemma HiddenRowsReturn(w: World, acts: seq<Action>, user: User, id: JobId)
    requires B.LedgerInv(w.db) && NotResubmitted(acts, user, id)
    requires Run(w, acts).db.now >= w.db.now + 72 * 3600
    ensures var db := Run(w, acts).db;
            id in B.UnscoredJobs(db, user) <==> id in db.jobs && db.jobs[id].user == user && B.WantsScore(db.jobs[id])
  {
    var db := Run(w, acts).db;
    forall m | m in db.members && m.job == id && m.batch.user == user
      ensures !B.Holding(db, m.batch)
    { HoldersAreOld(w, acts, user, id, m); }
  }

  /** Ending the batch is the other way back: at once, for every row that no other open batch holds. */
  lemma EndReleasesRows(db: Db, key: BatchKey, state: BatchState, error: Opt<Text>, id: JobId)
    requires B.LedgerInv(db) && B.IsOpen(db, key) && state != Submitted
    ensures var after := B.EndBatch(db, key, state, error);
            B.HiddenByBatch(after, key.user, id) <==>
            exists m :: m in db.members && m.job == id && m.batch.user == key.user && m.batch != key && B.Holding(db, m.batch)
  {
  }
}
