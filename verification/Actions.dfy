/** Every transaction as one atomic step of a shared world; rows read by one transaction and written by a later one are kept as reads. */
module Actions {
  import opened Sql
  import opened Tables
  import opened Pipeline
  import Dedup
  import S = Scoring
  import B = ScoreBatch
  import C = Canonicalize

  /** What a transaction has read and a later one will act on. */
  datatype Read =
    | AlternateRead(user: User, id: JobId, row: Job)
    | GhostRead(user: User, item: GhostItem)
    | RejectRead(user: User, id: JobId, from: Word)
    | CloseRead(user: User, id: JobId)
    | ReopenRead(user: User, id: JobId)

  datatype World = World(db: Db, inFlight: set<Read>)

  datatype Lead = Lead(globalId: GlobalId, title: Text, company: Text, url: Text, platform: Word, location: Text,
                       postedAt: Opt<int>, description: Text)

  datatype Action =
    | Tick(seconds: nat)
    | InsertLead(user: User, rowId: JobId, lead: Lead)
    | MarkAttempt(user: User, id: JobId)
    | MarkFailure(user: User, id: JobId, message: Text)
    | ScoreJob(user: User, id: JobId, score: int, reasoning: Text, hash: Text)
    | ArchiveLowScore(user: User, id: JobId, threshold: int)
    | RequeueStale(user: User, current: Text, minScore: int)
    | ArchivePrefiltered(user: User, id: JobId, reason: Reason)
    | ArchiveStale(user: User, days: int)
    | DedupExisting(user: User, tie: JobId -> int)
    | Unarchive(user: User, ids: seq<JobId>, threshold: int)
    | CreateBatch(key: BatchKey, model: Model, hash: Text, ids: seq<JobId>)
    | CloseBatch(key: BatchKey, state: BatchState, error: Text)
    | ApplyBatch(key: BatchKey, writes: seq<B.Write>, threshold: int, model: Model, delta: Usage, date: int)
    | RecordUsage(uid: User, date: int, model: Model, delta: Usage)
    | SetStage(user: User, id: JobId, value: Word)
    | ArchiveByUser(user: User, id: JobId)
    | ReadGhosts(user: User, days: int)
    | WriteGhosts(user: User, items: seq<GhostItem>)
    | ReadRejection(user: User, id: JobId)
    | WriteRejection(user: User, id: JobId, from: Word, at: int)
    | ReadAlternates(user: User, onlyPending: bool)
    | CanonicalizeOne(user: User, altId: JobId, alt: Job, res: C.Resolution, rowId: JobId)
    | ReadCloseChecks(user: User)
    | WriteClose(user: User, id: JobId)
    | ReadReopens(user: User)
    | WriteReopen(user: User, id: JobId)
    | RolledBack

  // ---------------------------------------------------------------- inserting a lead

  function LeadRow(user: User, l: Lead, now: int): Job {
    Job(user, Val(l.globalId), Val(l.title), Val(l.company), Val(l.url), Val(l.platform), Val(l.location),
        l.postedAt, Val(l.description), now, now, Val(now), Val(Pending), Null, Null, Null, Null, Null, Val(0), Null,
        Null, Null, Null, Null, Extra(Null, Null, Null, Null, Null, Null, Null, Null))
  }

  predicate LeadKnown(jobs: Jobs, user: User, rowId: JobId, l: Lead) {
    rowId in jobs || (exists k :: k in jobs && jobs[k].user == user && jobs[k].globalId == Val(l.globalId))
  }

  /** The insert of repository.go, then the patches of a blank location and a blank description. */
  function InsertLeadInto(jobs: Jobs, user: User, rowId: JobId, l: Lead, now: int): Jobs {
    var inserted := if LeadKnown(jobs, user, rowId, l) then jobs else jobs[rowId := LeadRow(user, l, now)];
    if !Owns(inserted, user, rowId) then inserted
    else
      var j := inserted[rowId];
      var located := if l.location != EMPTY && !C.NonBlank(j.location) then j.(location := Val(l.location)) else j;
      inserted[rowId := if l.description != EMPTY && !C.NonBlank(located.description)
                        then located.(description := Val(l.description), updatedAt := now) else located]
  }

  /** The tenant has no row of this id, and no row of this posting under another id. */
  predicate IsNewLead(jobs: Jobs, user: User, rowId: JobId, l: Lead) {
    rowId !in jobs && forall k :: k in jobs ==> jobs[k].user != user || jobs[k].globalId != Val(l.globalId)
  }

  /**
   * A new lead is a pending row of the tenant with the lead's texts, first seen now, and without stage, score, archive reason
   * or dates. A row that is there only gets a location or a description that it lacked; scraping again changes nothing else.
   */
  lemma LeadOutcome(jobs: Jobs, user: User, rowId: JobId, l: Lead, now: int)
    ensures var after := InsertLeadInto(jobs, user, rowId, l, now);
            (forall k :: k in jobs && k != rowId ==> k in after && after[k] == jobs[k]) && after.Keys <= jobs.Keys + {rowId} &&
            (rowId in after <==> rowId in jobs || IsNewLead(jobs, user, rowId, l))
    ensures var after := InsertLeadInto(jobs, user, rowId, l, now);
            IsNewLead(jobs, user, rowId, l) ==>
              var j := after[rowId];
              j.user == user && j.globalId == Val(l.globalId) && j.title == Val(l.title) && j.company == Val(l.company) &&
              j.url == Val(l.url) && j.platform == Val(l.platform) && j.location == Val(l.location) && j.postedAt == l.postedAt &&
              j.description == Val(l.description) && j.createdAt == now && j.updatedAt == now && j.firstSeenAt == Val(now) &&
              j.status == Val(Pending) && j.stage.Null? && j.score.Null? && j.resumeHash.Null? && j.scoreAttempts == Val(0) &&
              j.archiveReason.Null? && j.appliedAt.Null? && j.rejectedAt.Null? && j.rejectedFromStage.Null?
    ensures var after := InsertLeadInto(jobs, user, rowId, l, now);
            rowId in jobs ==>
              var j := jobs[rowId];
              var locates := j.user == user && l.location != EMPTY && (j.location.Null? || j.location.v == EMPTY);
              var describes := j.user == user && l.description != EMPTY && (j.description.Null? || j.description.v == EMPTY);
              after[rowId] == j.(location := if locates then Val(l.location) else j.location,
                                 description := if describes then Val(l.description) else j.description,
                                 updatedAt := if describes then now else j.updatedAt)
  {
  }

  // ---------------------------------------------------------------- one step

  /** A write that acts on earlier reads needs them; a batch is closed into a terminal state. */
  predicate Enabled(w: World, a: Action) {
    match a
    case CloseBatch(_, state, _) => state != Submitted
    case WriteGhosts(user, items) => forall i :: 0 <= i < |items| ==> GhostRead(user, items[i]) in w.inFlight
    case WriteRejection(user, id, from, _) => RejectRead(user, id, from) in w.inFlight
    case CanonicalizeOne(user, altId, alt, _, _) => AlternateRead(user, altId, alt) in w.inFlight
    case WriteClose(user, id) => CloseRead(user, id) in w.inFlight
    case WriteReopen(user, id) => ReopenRead(user, id) in w.inFlight
    case _ => true
  }

  function NewJobs(db: Db, a: Action): Jobs {
    match a
    case InsertLead(user, rowId, l) => InsertLeadInto(db.jobs, user, rowId, l, db.now)
    case MarkAttempt(user, id) => S.MarkAttempt(db.jobs, user, id, db.now)
    case MarkFailure(user, id, message) => S.MarkFailure(db.jobs, user, id, message, db.now)
    case ScoreJob(user, id, score, reasoning, hash) => S.ScoreJob(db.jobs, user, id, score, reasoning, hash, db.now)
    case ArchiveLowScore(user, id, threshold) => S.ArchiveLowScore(db.jobs, user, id, threshold, db.now)
    case RequeueStale(user, current, minScore) => S.RequeueStale(db.jobs, user, current, minScore, db.now)
    case ArchivePrefiltered(user, id, reason) => S.ArchivePrefiltered(db.jobs, user, id, reason, db.now)
    case ArchiveStale(user, days) => S.ArchiveStale(db.jobs, user, days, db.now)
    case DedupExisting(user, tie) => Dedup.DedupAll(db.jobs, user, tie, db.now)
    case Unarchive(user, ids, threshold) => S.Unarchive(db.jobs, user, ids, threshold, db.now)
    case _ => db.jobs
  }

  function NewDb(db: Db, a: Action): Db {
    match a
    case Tick(seconds) => db.(now := db.now + seconds)
    case CreateBatch(key, model, hash, ids) => B.CreateBatch(db, key, model, hash, ids)
    case CloseBatch(key, state, error) => B.CloseBatch(db, key, state, error)
    case ApplyBatch(key, ws, threshold, model, delta, date) =>
      if key in db.batches then B.ApplyBatch(db, key, ws, db.batches[key].resumeHash, threshold, model, delta, date) else db
    case RecordUsage(uid, date, model, delta) => db.(usage := B.AddUsage(db.usage, UsageKey(uid, date, model), delta))
    case SetStage(user, id, value) => SetPipelineStage(db, user, id, value)
    case ArchiveByUser(user, id) => ArchiveJob(db, user, id)
    case WriteGhosts(user, items) => GhostWrite(db, user, items)
    case WriteRejection(user, id, from, at) => RejectWrite(db, user, id, from, at)
    case CanonicalizeOne(user, altId, alt, res, rowId) => C.CanonicalizeJob(db, user, altId, alt, res, rowId)
    case WriteClose(user, id) => SetPipelineStage(db, user, id, Closed)
    case WriteReopen(user, id) => SetPipelineStage(db, user, id, Blank)
    case _ => db.(jobs := NewJobs(db, a))
  }

  function NewReads(db: Db, a: Action): set<Read> {
    match a
    case ReadGhosts(user, days) =>
      set item | item in GhostItems(db.jobs, user, days, db.now) :: GhostRead(user, item)
    case ReadRejection(user, id) =>
      if id in db.jobs && RejectHit(db.jobs[id], user)
      then {RejectRead(user, id, OrApplied(Coalesce(db.jobs[id].stage, Blank)))} else {}
    case ReadAlternates(user, onlyPending) =>
      set id | id in db.jobs && db.jobs[id].user == user && !IsPrimary(db.jobs[id]) && (onlyPending ==> Is(db.jobs[id].status, Pending))
        :: AlternateRead(user, id, db.jobs[id])
    case ReadCloseChecks(user) =>
      set id | id in db.jobs && CloseCandidate(db.jobs[id], user) :: CloseRead(user, id)
    case ReadReopens(user) =>
      set id | id in db.jobs && ReopenCandidate(db.jobs[id], user) :: ReopenRead(user, id)
    case _ => {}
  }

  function Step(w: World, a: Action): World {
    if Enabled(w, a) then World(NewDb(w.db, a), w.inFlight + NewReads(w.db, a)) else w
  }

  /** A run of any transactions of any actors, in any order. */
  function Run(w: World, acts: seq<Action>): World {
    if acts == [] then w else Step(Run(w, acts[..|acts| - 1]), acts[|acts| - 1])
  }

  const START := World(Db(0, map[], [], map[], {}, map[], [], map[]), {})

  // ---------------------------------------------------------------- what a step may do to a row

  datatype Effect =
    | Untouched
    | AutoArchived(reason: Reason)
    | Revived
    | StagedTo(value: Word)
    | ArchivedByUser
    | GhostedBySweep
    | RejectedByMail(from: Word, at: int)
    | AlternateArchived(reason: Reason)
    | MergedWith(alt: Job)
    | MergedAndArchived(alt: Job)

  /** The lifecycle columns of a row. */
  datatype Life = Life(user: User, status: Opt<Word>, stage: Opt<Word>, reason: Opt<Reason>, appliedAt: Opt<int>)

  function LifeOf(j: Job): Life { Life(j.user, j.status, j.stage, j.archiveReason, j.appliedAt) }

  function MergedLife(b: Life, alt: Job): Life {
    b.(status := Val(C.PreferredStatus(Coalesce(b.status, Blank), Coalesce(alt.status, Blank))),
       stage := C.MergeWord(b.stage, alt.stage),
       appliedAt := C.MergeNumber(b.appliedAt, alt.appliedAt))
  }

  /** The lifecycle columns after an effect, and what the effect needs of the row before. */
  predicate Transition(e: Effect, b: Life, a: Life, now: int) {
    match e
    case Untouched => a == b
    case AutoArchived(r) => Is(b.status, Pending) && a == b.(status := Val(Archived), reason := Val(r))
    case Revived => Is(b.status, Archived) && b.reason.Val? && b.reason.v in S.REVIVABLE
                    && a == b.(status := Val(Pending), reason := Null)
    case StagedTo(v) =>
      (match v
       case Blank => a == b.(status := Val(Pending), stage := Null)
       case Closed => a == b.(status := Val(Closed), stage := Val(Closed))
       case Rejected => a == b.(status := Val(Rejected), stage := Val(Rejected))
       case Ghosted => a == b.(status := Val(Ghosted), stage := Val(Ghosted))
       case _ => a == b.(status := Val(Applied), stage := Val(v), appliedAt := Val(Coalesce(b.appliedAt, now))))
    case ArchivedByUser => a == b.(status := Val(Archived))
    case GhostedBySweep => a == b.(status := Val(Ghosted), stage := Val(Ghosted))
    case RejectedByMail(_, _) => a == b.(status := Val(Rejected), stage := Val(Rejected))
    case AlternateArchived(r) => a == b.(status := Val(Archived), reason := Val(r))
    case MergedWith(alt) => a == MergedLife(b, alt)
    case MergedAndArchived(alt) => a == MergedLife(b, alt).(status := Val(Archived), reason := Val(Canonicalized))
  }

  /** Which step has which effect. */
  predicate Causes(a: Action, id: JobId, e: Effect) {
    match e
    case Untouched => true
    case AutoArchived(r) =>
      (match a
       case ArchiveLowScore(_, i, _) => i == id && r == LowScore
       case ApplyBatch(_, _, _, _, _, _) => r == LowScore
       case ArchivePrefiltered(_, i, reason) => i == id && r == reason
       case ArchiveStale(_, _) => r == StaleUnscored
       case DedupExisting(_, _) => r in {DedupRepost, DedupPending, DedupAlternate}
       case _ => false)
    case Revived => a.Unarchive? && id in a.ids
    case StagedTo(v) => (a.SetStage? && a.id == id && a.value == v) || (a.WriteClose? && a.id == id && v == Closed)
                        || (a.WriteReopen? && a.id == id && v == Blank)
    case ArchivedByUser => a.ArchiveByUser? && a.id == id
    case GhostedBySweep => a.WriteGhosts? && Ids(a.items, id)
    case RejectedByMail(from, at) => a.WriteRejection? && a.id == id && a.from == from && a.at == at
    case AlternateArchived(r) => a.CanonicalizeOne? && a.altId == id && r in {Canonicalized, UnsupportedAlternate}
    case MergedWith(alt) => a.CanonicalizeOne? && a.rowId == id && a.alt == alt && a.altId != id && C.IsPrimaryResolution(a.res)
    case MergedAndArchived(alt) => a.CanonicalizeOne? && a.rowId == id && a.alt == alt && a.altId == id && C.IsPrimaryResolution(a.res)
  }

  lemma DedupedLife(jobs: Jobs, user: User, tie: JobId -> int, now: int, id: JobId) returns (e: Effect)
    requires id in jobs
    ensures id in Dedup.DedupAll(jobs, user, tie, now)
    ensures Transition(e, LifeOf(jobs[id]), LifeOf(Dedup.DedupAll(jobs, user, tie, now)[id]), now)
    ensures e.Untouched? || (e.AutoArchived? && e.reason in {DedupRepost, DedupPending, DedupAlternate})
  {
    hide Dedup.DedupAll;
    var after := Dedup.DedupAll(jobs, user, tie, now);
    Dedup.DedupFrame(jobs, user, tie, now, id);
    e := if after[id] != jobs[id] then AutoArchived(after[id].archiveReason.v) else Untouched;
  }

  /** Inserting a lead, scoring and requeueing leave the lifecycle columns of every existing row alone. */
  lemma ScoringKeepsLife(db: Db, a: Action, id: JobId)
    requires id in db.jobs && (a.InsertLead? || a.MarkAttempt? || a.MarkFailure? || a.ScoreJob? || a.RequeueStale?)
    ensures id in NewJobs(db, a) && LifeOf(NewJobs(db, a)[id]) == LifeOf(db.jobs[id])
  {
    hide Dedup.DedupAll, S.ArchiveLowScore, S.ArchivePrefiltered, S.ArchiveStale, S.Unarchive;
  }

  lemma JobsEffect(db: Db, a: Action, id: JobId) returns (e: Effect)
    requires id in db.jobs
    ensures id in NewJobs(db, a)
    ensures Transition(e, LifeOf(db.jobs[id]), LifeOf(NewJobs(db, a)[id]), db.now) && Causes(a, id, e)
    ensures e.Untouched? || e.AutoArchived? || e.Revived?
  {
    hide Dedup.DedupAll, InsertLeadInto, S.MarkAttempt, S.MarkFailure, S.ScoreJob, S.RequeueStale;
    var after := NewJobs(db, a);
    e := Untouched;
    match a {
      case DedupExisting(user, tie) =>
        e := DedupedLife(db.jobs, user, tie, db.now, id);
      case ArchiveLowScore(_, _, _) =>
        if after[id] != db.jobs[id] { e := AutoArchived(LowScore); }
      case ArchivePrefiltered(user, i, reason) =>
        if i == id && S.PrefilterHit(db.jobs, user, id) { e := AutoArchived(reason); }
      case ArchiveStale(user, days) =>
        if S.StaleHit(db.jobs[id], user, days, db.now) { e := AutoArchived(StaleUnscored); }
      case Unarchive(user, ids, threshold) =>
        if S.UnarchiveHit(db.jobs, user, ids, threshold, id) { e := Revived; }
      case _ =>
        if a.InsertLead? || a.MarkAttempt? || a.MarkFailure? || a.ScoreJob? || a.RequeueStale? { ScoringKeepsLife(db, a, id); }
    }
  }

  lemma ApplyEffect(db: Db, a: Action, id: JobId) returns (e: Effect)
    requires id in db.jobs && a.ApplyBatch?
    ensures id in NewDb(db, a).jobs
    ensures Transition(e, LifeOf(db.jobs[id]), LifeOf(NewDb(db, a).jobs[id]), db.now) && Causes(a, id, e)
    ensures e.Untouched? || e.AutoArchived?
  {
    hide NewJobs, C.CanonicalizeJob, SetPipelineStage, ArchiveJob, GhostWrite, RejectWrite;
    e := Untouched;
    if B.IsOpen(db, a.key) {
      B.LandingRow(db.jobs, a.key.user, a.writes, db.batches[a.key].resumeHash, a.threshold, db.now, id);
      if B.Landable(db.jobs, a.key.user, id) {
        match B.ScoreFor(a.writes, id)
        case Val(w) => if w.score <= a.threshold { e := AutoArchived(LowScore); }
        case Null =>
      }
    }
  }

  lemma BackfillKeepsLife(db: Db, alt: Job, res: C.Resolution, id: JobId)
    requires id in db.jobs
    ensures res.job.Val? ==> LifeOf(C.BackfilledRow(db.jobs[id], res.job.v, alt, db.now)) == LifeOf(db.jobs[id])
  {
  }

  /** What a canonicalization does to row `id`, and why. */
  lemma CanonicalizedLife(db: Db, user: User, altId: JobId, alt: Job, res: C.Resolution, rowId: JobId, id: JobId) returns (e: Effect)
    requires id in db.jobs
    ensures id in C.CanonicalizeJob(db, user, altId, alt, res, rowId).jobs
    ensures Transition(e, LifeOf(db.jobs[id]), LifeOf(C.CanonicalizeJob(db, user, altId, alt, res, rowId).jobs[id]), db.now)
    ensures e.Untouched? || (e.AlternateArchived? && altId == id && e.reason in {Canonicalized, UnsupportedAlternate}) ||
            (e == MergedWith(alt) && rowId == id && altId != id && C.IsPrimaryResolution(res)) ||
            (e == MergedAndArchived(alt) && rowId == id && altId == id && C.IsPrimaryResolution(res))
  {
    hide C.CanonicalizeJob, C.Commits, C.BackfilledRow, C.PreferredStatus, C.MergeText, C.MergeWord, C.MergeNumber, C.EarliestDate;
    C.RowOf(db, user, altId, alt, res, rowId, id);
    BackfillKeepsLife(db, alt, res, id);
    e := Untouched;
    if C.Commits(db, user, altId, alt, res, rowId) {
      if C.IsPrimaryResolution(res) {
        if id == rowId && db.jobs[id].user == user {
          e := if id == altId then MergedAndArchived(alt) else MergedWith(alt);
        } else if id == altId && db.jobs[id].user == user {
          e := AlternateArchived(Canonicalized);
        }
      } else if res.status.Unsupported? && id == altId && db.jobs[id].user == user {
        e := AlternateArchived(UnsupportedAlternate);
      }
    }
  }

  lemma CanonicalizeEffect(db: Db, a: Action, id: JobId) returns (e: Effect)
    requires id in db.jobs && a.CanonicalizeOne?
    ensures id in NewDb(db, a).jobs
    ensures Transition(e, LifeOf(db.jobs[id]), LifeOf(NewDb(db, a).jobs[id]), db.now) && Causes(a, id, e)
  {
    hide NewJobs, Transition, C.CanonicalizeJob, SetPipelineStage,
      ArchiveJob, GhostWrite, RejectWrite, B.CreateBatch, B.CloseBatch, B.ApplyBatch, B.AddUsage;
    e := CanonicalizedLife(db, a.user, a.altId, a.alt, a.res, a.rowId, id);
  }

  predicate IsStageMove(a: Action) { a.SetStage? || a.WriteClose? || a.WriteReopen? }

  lemma StagedLife(db: Db, user: User, moved: JobId, value: Word, id: JobId) returns (e: Effect)
    requires id in db.jobs
    ensures id in SetPipelineStage(db, user, moved, value).jobs
    ensures Transition(e, LifeOf(db.jobs[id]), LifeOf(SetPipelineStage(db, user, moved, value).jobs[id]), db.now)
    ensures e.Untouched? || (e == StagedTo(value) && moved == id && db.jobs[id].user == user)
  {
    e := if moved == id && Owns(db.jobs, user, id) then StagedTo(value) else Untouched;
  }

  lemma StageEffect(db: Db, a: Action, id: JobId) returns (e: Effect)
    requires id in db.jobs && IsStageMove(a)
    ensures id in NewDb(db, a).jobs
    ensures Transition(e, LifeOf(db.jobs[id]), LifeOf(NewDb(db, a).jobs[id]), db.now) && Causes(a, id, e)
    ensures e.Untouched? || db.jobs[id].user == a.user
  {
    hide NewJobs, Transition, C.CanonicalizeJob, SetPipelineStage,
      ArchiveJob, GhostWrite, RejectWrite, B.CreateBatch, B.CloseBatch, B.ApplyBatch, B.AddUsage;
    e := StagedLife(db, a.user, a.id, if a.SetStage? then a.value else if a.WriteClose? then Closed else Blank, id);
  }

  lemma ArchivedLife(db: Db, user: User, moved: JobId, id: JobId) returns (e: Effect)
    requires id in db.jobs
    ensures id in ArchiveJob(db, user, moved).jobs
    ensures Transition(e, LifeOf(db.jobs[id]), LifeOf(ArchiveJob(db, user, moved).jobs[id]), db.now)
    ensures e.Untouched? || (e.ArchivedByUser? && moved == id && db.jobs[id].user == user)
  {
    e := if moved == id && Owns(db.jobs, user, id) then ArchivedByUser else Untouched;
  }

  lemma GhostedLife(db: Db, user: User, items: seq<GhostItem>, id: JobId) returns (e: Effect)
    requires id in db.jobs
    ensures id in GhostWrite(db, user, items).jobs
    ensures Transition(e, LifeOf(db.jobs[id]), LifeOf(GhostWrite(db, user, items).jobs[id]), db.now)
    ensures e.Untouched? || (e.GhostedBySweep? && Ids(items, id) && db.jobs[id].user == user)
  {
    GhostAllRow(db, user, items, id);
    e := if AllExist(db.jobs, items) && Ids(items, id) && db.jobs[id].user == user then GhostedBySweep else Untouched;
  }

  lemma RejectedLife(db: Db, user: User, moved: JobId, from: Word, at: int, id: JobId) returns (e: Effect)
    requires id in db.jobs
    ensures id in RejectWrite(db, user, moved, from, at).jobs
    ensures Transition(e, LifeOf(db.jobs[id]), LifeOf(RejectWrite(db, user, moved, from, at).jobs[id]), db.now)
    ensures e.Untouched? || (e == RejectedByMail(from, at) && moved == id && db.jobs[id].user == user)
  {
    e := if moved == id && Owns(db.jobs, user, id) then RejectedByMail(from, at) else Untouched;
  }

  lemma SweepEffect(db: Db, a: Action, id: JobId) returns (e: Effect)
    requires id in db.jobs && (a.ArchiveByUser? || a.WriteGhosts? || a.WriteRejection?)
    ensures id in NewDb(db, a).jobs
    ensures Transition(e, LifeOf(db.jobs[id]), LifeOf(NewDb(db, a).jobs[id]), db.now) && Causes(a, id, e)
    ensures e.Untouched? || db.jobs[id].user == a.user
  {
    hide NewJobs, Transition, C.CanonicalizeJob, SetPipelineStage,
      ArchiveJob, GhostWrite, RejectWrite, B.CreateBatch, B.CloseBatch, B.ApplyBatch, B.AddUsage;
    match a {
      case ArchiveByUser(user, i) => e := ArchivedLife(db, user, i, id);
      case WriteGhosts(user, items) => e := GhostedLife(db, user, items, id);
      case WriteRejection(user, i, from, at) => e := RejectedLife(db, user, i, from, at, id);
    }
  }

  predicate LeavesJobs(a: Action) { a.Tick? || a.CreateBatch? || a.CloseBatch? || a.RecordUsage? }

  lemma LeavesJobsAlone(db: Db, a: Action)
    requires LeavesJobs(a)
    ensures NewDb(db, a).jobs == db.jobs
  {
    hide NewJobs;
  }

  predicate UpdatesJobsOnly(a: Action) {
    !a.ApplyBatch? && !a.CanonicalizeOne? && !IsStageMove(a) && !a.ArchiveByUser? && !a.WriteGhosts? && !a.WriteRejection? && !LeavesJobs(a)
  }

  lemma NewDbIsNewJobs(db: Db, a: Action)
    requires UpdatesJobsOnly(a)
    ensures NewDb(db, a) == db.(jobs := NewJobs(db, a))
  {
    hide NewJobs;
  }

  lemma UntouchedHolds(l: Life, now: int, a: Action, id: JobId)
    ensures Transition(Untouched, l, l, now) && Causes(a, id, Untouched)
  {
  }

  /** No step deletes a row, and each existing row changes by one of the listed effects. */
  lemma StepEffect(w: World, a: Action, id: JobId) returns (e: Effect)
    requires id in w.db.jobs
    ensures id in Step(w, a).db.jobs
    ensures Transition(e, LifeOf(w.db.jobs[id]), LifeOf(Step(w, a).db.jobs[id]), w.db.now) && Causes(a, id, e)
    ensures !e.Untouched? ==> Enabled(w, a) && (Logs(a) ==> w.db.jobs[id].user == a.user)
  {
    hide NewJobs, Transition, Causes, C.CanonicalizeJob, SetPipelineStage,
      ArchiveJob, GhostWrite, RejectWrite, B.CreateBatch, B.CloseBatch, B.ApplyBatch, B.AddUsage;
    UntouchedHolds(LifeOf(w.db.jobs[id]), w.db.now, a, id);
    if !Enabled(w, a) {
      e := Untouched;
    } else if a.ApplyBatch? {
      e := ApplyEffect(w.db, a, id);
    } else if a.CanonicalizeOne? {
      e := CanonicalizeEffect(w.db, a, id);
    } else if IsStageMove(a) {
      e := StageEffect(w.db, a, id);
    } else if a.ArchiveByUser? || a.WriteGhosts? || a.WriteRejection? {
      e := SweepEffect(w.db, a, id);
    } else if LeavesJobs(a) {
      LeavesJobsAlone(w.db, a);
      e := Untouched;
    } else {
      NewDbIsNewJobs(w.db, a);
      e := JobsEffect(w.db, a, id);
    }
  }

  /** A row that a step creates is a fresh pending lead, or a canonical row born from an alternate that was read. */
  predicate FreshRow(w: World, a: Action, id: JobId, life: Life) {
    (a.InsertLead? && a.rowId == id && life.status == Val(Pending) && life.stage.Null? && life.reason.Null? && life.appliedAt.Null?) ||
    (a.CanonicalizeOne? && a.rowId == id && AlternateRead(a.user, a.altId, a.alt) in w.inFlight &&
     life.stage == C.NullIfBlankWord(a.alt.stage) &&
     ((life.status == Val(C.OrPending(Coalesce(a.alt.status, Blank))) && life.reason.Null?) ||
      (life.status == Val(Archived) && life.reason == Val(Canonicalized))))
  }

  lemma NewJobsFresh(db: Db, a: Action, id: JobId)
    requires id in NewJobs(db, a) && id !in db.jobs
    ensures a.InsertLead? && a.rowId == id
    ensures var j := NewJobs(db, a)[id];
            j.user == a.user && j.status == Val(Pending) && j.stage.Null? && j.archiveReason.Null? && j.appliedAt.Null? && j.score.Null?
  {
  }

  /** The transactions that write the event log, canonicalization aside. */
  predicate Logs(a: Action) { IsStageMove(a) || a.ArchiveByUser? || a.WriteGhosts? || a.WriteRejection? }

  function Logged(db: Db, a: Action): Db
    requires Logs(a)
  {
    if a.SetStage? then SetPipelineStage(db, a.user, a.id, a.value)
    else if a.WriteClose? then SetPipelineStage(db, a.user, a.id, Closed)
    else if a.WriteReopen? then SetPipelineStage(db, a.user, a.id, Blank)
    else if a.ArchiveByUser? then ArchiveJob(db, a.user, a.id)
    else if a.WriteGhosts? then GhostWrite(db, a.user, a.items)
    else RejectWrite(db, a.user, a.id, a.from, a.at)
  }

  lemma NewDbIsLogged(db: Db, a: Action)
    requires Logs(a)
    ensures NewDb(db, a) == Logged(db, a)
  {
    hide NewJobs, SetPipelineStage, ArchiveJob, GhostWrite, RejectWrite, C.CanonicalizeJob, B.CreateBatch, B.CloseBatch, B.ApplyBatch;
  }

  lemma LoggedKeepsKeys(db: Db, a: Action)
    requires Logs(a)
    ensures Logged(db, a).jobs.Keys == db.jobs.Keys
  {
    if a.WriteGhosts? { GhostKeys(db, a.user, a.items); }
  }

  lemma ApplyKeepsKeys(db: Db, a: Action)
    requires a.ApplyBatch?
    ensures NewDb(db, a).jobs.Keys == db.jobs.Keys
  {
    hide NewJobs, SetPipelineStage, ArchiveJob, GhostWrite, RejectWrite, C.CanonicalizeJob, B.CreateBatch, B.CloseBatch;
    if a.key in db.batches {
      B.LandKeys(db.jobs, a.key.user, a.writes, db.batches[a.key].resumeHash, a.threshold, db.now);
    }
  }

  lemma SweepFresh(db: Db, a: Action)
    requires Logs(a) || a.ApplyBatch?
    ensures NewDb(db, a).jobs.Keys == db.jobs.Keys
  {
    hide NewDb, Logged;
    if a.ApplyBatch? {
      ApplyKeepsKeys(db, a);
    } else {
      NewDbIsLogged(db, a);
      LoggedKeepsKeys(db, a);
    }
  }

  lemma CanonicalizedFresh(db: Db, user: User, altId: JobId, alt: Job, res: C.Resolution, rowId: JobId, id: JobId)
    requires id in C.CanonicalizeJob(db, user, altId, alt, res, rowId).jobs && id !in db.jobs
    ensures rowId == id
    ensures var life := LifeOf(C.CanonicalizeJob(db, user, altId, alt, res, rowId).jobs[id]);
            life.stage == C.NullIfBlankWord(alt.stage) &&
            ((life.status == Val(C.OrPending(Coalesce(alt.status, Blank))) && life.reason.Null?) ||
             (life.status == Val(Archived) && life.reason == Val(Canonicalized)))
  {
    hide C.Aliased, C.RekeyEvents, C.RekeyRejections, C.ResolutionEvent;
    if C.IsPrimaryResolution(res) {
      C.FoldInherits(db.jobs, user, rowId, res.job.v, alt, db.now);
    }
  }

  lemma StepFresh(w: World, a: Action, id: JobId)
    requires id in Step(w, a).db.jobs && id !in w.db.jobs
    ensures FreshRow(w, a, id, LifeOf(Step(w, a).db.jobs[id]))
  {
    hide NewJobs, C.CanonicalizeJob, SetPipelineStage,
      ArchiveJob, GhostWrite, RejectWrite, B.CreateBatch, B.CloseBatch, B.ApplyBatch, B.AddUsage;
    if a.CanonicalizeOne? {
      CanonicalizedFresh(w.db, a.user, a.altId, a.alt, a.res, a.rowId, id);
    } else if UpdatesJobsOnly(a) {
      NewDbIsNewJobs(w.db, a);
      NewJobsFresh(w.db, a, id);
    } else if LeavesJobs(a) {
      LeavesJobsAlone(w.db, a);
    } else {
      SweepFresh(w.db, a);
    }
  }
}
