/** Foreign keys over every run: events and aliases name rows that exist, whatever canonicalization re-keys. */
module References {
  import opened Sql
  import opened Tables
  import opened Actions
  import P = Pipeline
  import B = ScoreBatch
  import C = Canonicalize
  import Replay

  predicate AliasOk(jobs: Jobs, altId: JobId, a: Alias) { altId in jobs && (a.canonical.Val? ==> a.canonical.v in jobs) }

  predicate RefsOk(db: Db) {
    (forall i :: 0 <= i < |db.events| ==> db.events[i].job in db.jobs) &&
    (forall k :: k in db.aliases ==> AliasOk(db.jobs, k, db.aliases[k]))
  }

  lemma LoggedKeepsAliases(db: Db, a: Action)
    requires Logs(a)
    ensures Logged(db, a).aliases == db.aliases
  {
    hide P.Staged, P.UserArchived, P.RejectedRow, P.StageEvent;
    if a.WriteGhosts? { P.GhostAllFrame(db, a.user, a.items); }
  }

  /** A logging step names rows that exist. */
  lemma LoggedKeepsRefs(db: Db, a: Action)
    requires Logs(a) && RefsOk(db)
    ensures RefsOk(Logged(db, a))
  {
    hide Logged;
    LoggedKeepsKeys(db, a);
    LoggedKeepsAliases(db, a);
    LoggedNamesRows(db, a);
  }

  lemma LoggedNamesRows(db: Db, a: Action)
    requires Logs(a) && RefsOk(db)
    ensures forall i :: 0 <= i < |Logged(db, a).events| ==> Logged(db, a).events[i].job in db.jobs
  {
    hide P.Staged, P.UserArchived, P.RejectedRow, P.GhostAll, AliasOk;
    if a.WriteGhosts? { P.GhostAllLogs(db, a.user, a.items); }
  }

  lemma QuietKeepsAliases(db: Db, a: Action)
    requires !a.CanonicalizeOne? && !Logs(a)
    ensures NewDb(db, a).aliases == db.aliases
  {
    hide NewJobs, C.CanonicalizeJob, P.SetPipelineStage, P.ArchiveJob, P.GhostWrite, P.RejectWrite;
  }

  /** Re-keyed events name the canonical row, which exists when the transaction commits; so does the new alias. */
  lemma CanonicalizeKeepsRefs(db: Db, user: User, altId: JobId, alt: Job, res: C.Resolution, rowId: JobId)
    requires RefsOk(db) && C.Commits(db, user, altId, alt, res, rowId)
    requires db.jobs.Keys <= C.CanonicalizeJob(db, user, altId, alt, res, rowId).jobs.Keys
    ensures RefsOk(C.CanonicalizeJob(db, user, altId, alt, res, rowId))
  {
    hide C.FoldedJobs, C.NullIfBlank, C.NullIfBlankWord;
    var after := C.CanonicalizeJob(db, user, altId, alt, res, rowId);
    assert C.IsPrimaryResolution(res) ==> rowId in after.jobs;
    forall i | 0 <= i < |after.events|
      ensures after.events[i].job in after.jobs
    {
      if i < |db.events| { assert db.events[i].job in db.jobs; }
    }
  }

  lemma KeysGrow(w: World, a: Action)
    ensures w.db.jobs.Keys <= Step(w, a).db.jobs.Keys
  {
    hide Step;
    forall id | id in w.db.jobs
      ensures id in Step(w, a).db.jobs
    { var e := StepEffect(w, a, id); }
  }

  lemma RefsStep(w: World, a: Action)
    requires RefsOk(w.db)
    ensures RefsOk(Step(w, a).db)
  {
    hide NewReads, Logged, RefsOk, C.CanonicalizeJob, C.Commits, NewJobs, P.SetPipelineStage, P.ArchiveJob, P.GhostWrite, P.RejectWrite,
      B.CreateBatch, B.CloseBatch, B.ApplyBatch;
    KeysGrow(w, a);
    if Enabled(w, a) {
      if Logs(a) {
        NewDbIsLogged(w.db, a);
        LoggedKeepsRefs(w.db, a);
      } else if a.CanonicalizeOne? {
        if C.Commits(w.db, a.user, a.altId, a.alt, a.res, a.rowId) {
          CanonicalizeKeepsRefs(w.db, a.user, a.altId, a.alt, a.res, a.rowId);
        } else {
          NothingCommitted(w.db, a);
        }
      } else {
        Replay.EventsKept(w.db, a);
        QuietKeepsAliases(w.db, a);
        MoreRowsKeepRefs(w.db, NewDb(w.db, a));
      }
    }
  }

  lemma NothingCommitted(db: Db, a: Action)
    requires a.CanonicalizeOne? && !C.Commits(db, a.user, a.altId, a.alt, a.res, a.rowId)
    ensures C.CanonicalizeJob(db, a.user, a.altId, a.alt, a.res, a.rowId) == db
  {
  }

  lemma MoreRowsKeepRefs(db: Db, after: Db)
    requires RefsOk(db) && db.jobs.Keys <= after.jobs.Keys && after.events == db.events && after.aliases == db.aliases
    ensures RefsOk(after)
  {
    forall k | k in after.aliases ensures AliasOk(after.jobs, k, after.aliases[k]) { assert AliasOk(db.jobs, k, db.aliases[k]); }
  }

  /** In every reachable state, canonicalizations included, each event and each alias names rows that exist. */
  lemma {:induction false} ReachableReferences(acts: seq<Action>)
    ensures RefsOk(Run(START, acts).db)
  {
    if acts != [] {
      ReachableReferences(acts[..|acts| - 1]);
      RefsStep(Run(START, acts[..|acts| - 1]), acts[|acts| - 1]);
    }
  }
}
