/** canonicalize.go: folding a resolved alternate row into its canonical primary row. */
module Canonicalize {
  import opened Sql
  import opened Tables

  // ---------------------------------------------------------------- column helpers

  /** NULL and the empty string are blank. */
  predicate NonBlank(t: Opt<Text>) { t.Val? && t.v != EMPTY }
  predicate NonBlankWord(w: Opt<Word>) { w.Val? && w.v != Blank }

  function MergeText(canonical: Opt<Text>, alternate: Opt<Text>): Opt<Text> {
    if !NonBlank(canonical) && NonBlank(alternate) then alternate else canonical
  }

  function MergeWord(canonical: Opt<Word>, alternate: Opt<Word>): Opt<Word> {
    if !NonBlankWord(canonical) && NonBlankWord(alternate) then alternate else canonical
  }

  /** `mergeInt`, and `mergeStr` on a timestamp. */
  function MergeNumber(canonical: Opt<int>, alternate: Opt<int>): Opt<int> {
    if canonical.Null? then alternate else canonical
  }

  function NullIfBlank(t: Opt<Text>): Opt<Text> { if NonBlank(t) then t else Null }
  function NullIfBlankWord(w: Opt<Word>): Opt<Word> { if NonBlankWord(w) then w else Null }

  function FirstNonEmpty(t: Text, fallback: Opt<Text>): Text { if t != EMPTY then t else Coalesce(fallback, EMPTY) }

  /** `COALESCE(NULLIF(column, ''), value)`. */
  function Backfilled(column: Opt<Text>, value: Text): Opt<Text> { if NonBlank(column) then column else Val(value) }

  // ---------------------------------------------------------------- status and date

  function Rank(w: Word): nat {
    match w
    case Pending => 1 case Archived => 2 case Closed => 3 case Rejected => 4 case Responded => 5 case Applied => 6
    case _ => 1
  }

  function OrPending(w: Word): Word { if w == Blank then Pending else w }

  function PreferredStatus(currentStatus: Word, alternateStatus: Word): Word {
    var current := OrPending(currentStatus);
    var alternate := OrPending(alternateStatus);
    if alternate == Archived && current != Archived then current
    else if Rank(alternate) > Rank(current) then alternate
    else current
  }

  function EarliestDate(left: Opt<int>, right: Opt<int>): Opt<int> {
    if left.Null? then right
    else if right.Null? then left
    else if right.v < left.v then right
    else left
  }

  function FirstSeenInherit(j: Job): Opt<int> { if j.firstSeenAt.Val? then j.firstSeenAt else Val(j.createdAt) }

  // ---------------------------------------------------------------- the transaction

  datatype ResolvedJob = ResolvedJob(
    id: GlobalId, title: Text, company: Text, url: Text, platform: Word, location: Text,
    postedAt: Opt<int>, description: Text)

  datatype ResolutionStatus = Primary | Unsupported | Unresolved

  datatype Resolution = Resolution(
    status: ResolutionStatus, platform: Word, url: Text, job: Opt<ResolvedJob>, confidence: real, evidence: Text)

  predicate IsPrimaryResolution(res: Resolution) {
    res.status == Primary && res.job.Val? && res.job.v.id != EMPTY
  }

  /** The row that the INSERT offers: content from the resolved posting, pipeline state from the alternate. */
  function InsertedRow(user: User, r: ResolvedJob, alt: Job, now: int): Job {
    Job(user, Val(r.id),
        Val(FirstNonEmpty(r.title, alt.title)), Val(FirstNonEmpty(r.company, alt.company)),
        Val(FirstNonEmpty(r.url, alt.url)), Val(if r.platform != Blank then r.platform else Coalesce(alt.platform, Blank)),
        Val(FirstNonEmpty(r.location, alt.location)), MergeNumber(r.postedAt, alt.postedAt),
        Val(FirstNonEmpty(r.description, alt.description)),
        now, now, FirstSeenInherit(alt),
        Val(OrPending(Coalesce(alt.status, Blank))), NullIfBlankWord(alt.stage),
        alt.score, NullIfBlank(alt.reasoning), Null, NullIfBlank(alt.scoreError),
        Val(Coalesce(alt.scoreAttempts, 0)), alt.lastScoreAttemptAt,
        Null, alt.appliedAt, NullIfBlankWord(alt.rejectedFromStage), alt.rejectedAt,
        Extra(NullIfBlank(alt.extra.outreach), NullIfBlank(alt.extra.notes), NullIfBlank(alt.extra.reachedOutAt),
              NullIfBlank(alt.extra.interviewNotes), NullIfBlank(alt.extra.applyComplexity), alt.extra.claudeScore,
              NullIfBlank(alt.extra.claudeReasoning), NullIfBlank(alt.extra.rejectionReasoning)))
  }

  /** `INSERT OR IGNORE`: ignored when the row id, or the tenant's copy of the posting, exists. */
  function InsertCanonical(jobs: Jobs, user: User, rowId: JobId, r: ResolvedJob, alt: Job, now: int): Jobs {
    if rowId in jobs || (exists k :: k in jobs && jobs[k].user == user && jobs[k].globalId == Val(r.id)) then jobs
    else jobs[rowId := InsertedRow(user, r, alt, now)]
  }

  function BackfilledRow(c: Job, r: ResolvedJob, alt: Job, now: int): Job {
    c.(title := Backfilled(c.title, FirstNonEmpty(r.title, alt.title)),
       company := Backfilled(c.company, FirstNonEmpty(r.company, alt.company)),
       url := Backfilled(c.url, FirstNonEmpty(r.url, alt.url)),
       platform := if NonBlankWord(c.platform) then c.platform
                   else Val(if r.platform != Blank then r.platform else Coalesce(alt.platform, Blank)),
       location := Backfilled(c.location, FirstNonEmpty(r.location, alt.location)),
       postedAt := MergeNumber(c.postedAt, MergeNumber(r.postedAt, alt.postedAt)),
       description := Backfilled(c.description, FirstNonEmpty(r.description, alt.description)),
       updatedAt := now)
  }

  /** mergeAlternateState. */
  function MergedRow(c: Job, alt: Job, now: int): Job {
    c.(score := MergeNumber(c.score, alt.score),
       reasoning := MergeText(c.reasoning, alt.reasoning),
       status := Val(PreferredStatus(Coalesce(c.status, Blank), Coalesce(alt.status, Blank))),
       firstSeenAt := EarliestDate(FirstSeenInherit(c), FirstSeenInherit(alt)),
       appliedAt := MergeNumber(c.appliedAt, alt.appliedAt),
       stage := MergeWord(c.stage, alt.stage),
       rejectedFromStage := MergeWord(c.rejectedFromStage, alt.rejectedFromStage),
       rejectedAt := MergeNumber(c.rejectedAt, alt.rejectedAt),
       scoreAttempts := MergeNumber(c.scoreAttempts, alt.scoreAttempts),
       lastScoreAttemptAt := MergeNumber(c.lastScoreAttemptAt, alt.lastScoreAttemptAt),
       scoreError := MergeText(c.scoreError, alt.scoreError),
       extra := Extra(MergeText(c.extra.outreach, alt.extra.outreach), MergeText(c.extra.notes, alt.extra.notes),
                      MergeText(c.extra.reachedOutAt, alt.extra.reachedOutAt),
                      MergeText(c.extra.interviewNotes, alt.extra.interviewNotes),
                      MergeText(c.extra.applyComplexity, alt.extra.applyComplexity),
                      MergeNumber(c.extra.claudeScore, alt.extra.claudeScore),
                      MergeText(c.extra.claudeReasoning, alt.extra.claudeReasoning),
                      MergeText(c.extra.rejectionReasoning, alt.extra.rejectionReasoning)),
       updatedAt := now)
  }

  function Rekey(e: Event, user: User, from: JobId, to: JobId): Event {
    if e.user == user && e.job == from then e.(job := to) else e
  }

  function RekeyEvents(es: seq<Event>, user: User, from: JobId, to: JobId): seq<Event> {
    seq(|es|, i requires 0 <= i < |es| => Rekey(es[i], user, from, to))
  }

  function RekeyRejections(rs: seq<Rejection>, user: User, from: JobId, to: JobId): seq<Rejection> {
    seq(|rs|, i requires 0 <= i < |rs| =>
      if rs[i].user == user && rs[i].matchedJob == Val(from) then rs[i].(matchedJob := Val(to)) else rs[i])
  }

  function ArchiveAlternate(jobs: Jobs, user: User, id: JobId, reason: Reason, now: int): Jobs {
    if Owns(jobs, user, id) then jobs[id := AutoArchive(jobs[id], reason, now)] else jobs
  }

  function StatusWord(s: ResolutionStatus): Word {
    match s case Primary => Other(0) case Unsupported => UnsupportedUrl case Unresolved => Other(1)
  }

  function ResolutionEvent(db: Db, user: User, job: JobId, alt: Job, to: Word): Event {
    Event(user, job, AtsResolution, NullableWord(Coalesce(alt.platform, Blank)), NullableWord(to), db.now)
  }

  /** recordJobAlias: an upsert that leaves the tenant of an existing alias alone. */
  function Aliased(aliases: map<JobId, Alias>, user: User, altId: JobId, alt: Job, res: Resolution, canonical: Opt<JobId>,
                   status: ResolutionStatus, now: int): map<JobId, Alias> {
    aliases[altId := Alias(if altId in aliases then aliases[altId].user else user, canonical,
                           NullIfBlankWord(alt.platform), NullIfBlank(alt.url), NullableWord(res.platform), Nullable(res.url),
                           StatusWord(status), if res.confidence != 0.0 then Val(res.confidence) else Null, res.evidence, now)]
  }

  /** The columns of the alias; a confidence of zero and empty texts are NULL, and its tenant is that of the first alias recorded. */
  lemma AliasColumns(aliases: map<JobId, Alias>, user: User, altId: JobId, alt: Job, res: Resolution, canonical: Opt<JobId>,
                     status: ResolutionStatus, now: int)
    ensures var after := Aliased(aliases, user, altId, alt, res, canonical, status, now);
            after.Keys == aliases.Keys + {altId} && (forall k :: k in aliases && k != altId ==> after[k] == aliases[k]) &&
            var a := after[altId];
            a.canonical == canonical && a.evidence == res.evidence && a.updatedAt == now &&
            (altId in aliases ==> a.user == aliases[altId].user) && (altId !in aliases ==> a.user == user) &&
            (res.confidence == 0.0 <==> a.confidence.Null?) && (a.confidence.Val? ==> a.confidence.v == res.confidence) &&
            (a.originalPlatform.Val? ==> a.originalPlatform == alt.platform) && (alt.platform.Val? && alt.platform.v != Blank ==> a.originalPlatform.Val?) &&
            (a.originalUrl.Val? ==> a.originalUrl == alt.url) && (alt.url.Val? && alt.url.v != EMPTY ==> a.originalUrl.Val?) &&
            a.originalPlatform != Val(Blank) && a.originalUrl != Val(EMPTY) &&
            a.resolvedPlatform == (if res.platform == Blank then Null else Val(res.platform)) &&
            a.resolvedUrl == (if res.url == EMPTY then Null else Val(res.url))
  {
  }

  /** Foreign keys of job_aliases into jobs; a violation rolls the whole transaction back. */
  predicate AliasKeysExist(jobs: Jobs, altId: JobId, canonical: Opt<JobId>) {
    altId in jobs && (canonical.Val? ==> canonical.v in jobs)
  }

  /** The insert, backfill and merge of the canonical row. */
  function FoldedJobs(jobs: Jobs, user: User, rowId: JobId, r: ResolvedJob, alt: Job, now: int): Jobs {
    var inserted := InsertCanonical(jobs, user, rowId, r, alt, now);
    if Owns(inserted, user, rowId)
    then inserted[rowId := MergedRow(BackfilledRow(inserted[rowId], r, alt, now), alt, now)]
    else inserted
  }

  function CanonicalizePrimary(db: Db, user: User, altId: JobId, alt: Job, res: Resolution, rowId: JobId): Db
    requires IsPrimaryResolution(res)
  {
    var folded := FoldedJobs(db.jobs, user, rowId, res.job.v, alt, db.now);
    db.(jobs := ArchiveAlternate(folded, user, altId, Canonicalized, db.now),
        events := RekeyEvents(db.events, user, altId, rowId) + [ResolutionEvent(db, user, rowId, alt, res.platform)],
        rejections := RekeyRejections(db.rejections, user, altId, rowId),
        aliases := Aliased(db.aliases, user, altId, alt, res, Val(rowId), Primary, db.now))
  }

  function AliasTarget(res: Resolution): Opt<JobId> {
    if res.job.Val? && res.job.v.id != EMPTY then Val(res.job.v.id) else Null
  }

  function CanonicalizeOther(db: Db, user: User, altId: JobId, alt: Job, res: Resolution): Db {
    var aliased := db.(aliases := Aliased(db.aliases, user, altId, alt, res, AliasTarget(res), res.status, db.now));
    if res.status == Unsupported
    then aliased.(jobs := ArchiveAlternate(db.jobs, user, altId, UnsupportedAlternate, db.now),
                  events := db.events + [ResolutionEvent(db, user, altId, alt, UnsupportedUrl)])
    else aliased
  }

  /** Whether CanonicalizeAlternateJob commits; otherwise it returns an error and changes nothing. */
  predicate Commits(db: Db, user: User, altId: JobId, alt: Job, res: Resolution, rowId: JobId) {
    altId != EMPTY &&
    if IsPrimaryResolution(res)
    then AliasKeysExist(FoldedJobs(db.jobs, user, rowId, res.job.v, alt, db.now), altId, Val(rowId))
    else AliasKeysExist(db.jobs, altId, AliasTarget(res))
  }

  /** CanonicalizeAlternateJob. `alt` is the alternate as it was read, `rowId` the tenant's row id of the resolved posting. */
  function CanonicalizeJob(db: Db, user: User, altId: JobId, alt: Job, res: Resolution, rowId: JobId): Db {
    if !Commits(db, user, altId, alt, res, rowId) then db
    else if IsPrimaryResolution(res) then CanonicalizePrimary(db, user, altId, alt, res, rowId)
    else CanonicalizeOther(db, user, altId, alt, res)
  }

  /** An existing row after the transaction: merged into, archived as the alternate, both, or as it was. */
  function CanonicalizedRow(db: Db, user: User, altId: JobId, alt: Job, res: Resolution, rowId: JobId, id: JobId): Job
    requires id in db.jobs
  {
    var j := db.jobs[id];
    if !Commits(db, user, altId, alt, res, rowId) || j.user != user then j
    else if IsPrimaryResolution(res) then
      var m := if id == rowId then MergedRow(BackfilledRow(j, res.job.v, alt, db.now), alt, db.now) else j;
      if id == altId then AutoArchive(m, Canonicalized, db.now) else m
    else if res.status == Unsupported && id == altId then AutoArchive(j, UnsupportedAlternate, db.now)
    else j
  }

  lemma RowOf(db: Db, user: User, altId: JobId, alt: Job, res: Resolution, rowId: JobId, id: JobId)
    requires id in db.jobs
    ensures id in CanonicalizeJob(db, user, altId, alt, res, rowId).jobs
    ensures CanonicalizeJob(db, user, altId, alt, res, rowId).jobs[id] == CanonicalizedRow(db, user, altId, alt, res, rowId, id)
  {
    hide MergedRow, BackfilledRow, InsertedRow, Aliased, RekeyEvents, RekeyRejections, ResolutionEvent, Commits;
    if IsPrimaryResolution(res) { FoldKeepsTenant(db.jobs[id], res.job.v, alt, db.now); }
  }

  lemma FoldKeepsTenant(c: Job, r: ResolvedJob, alt: Job, now: int)
    ensures MergedRow(BackfilledRow(c, r, alt, now), alt, now).user == c.user && BackfilledRow(c, r, alt, now).user == c.user
  {
  }

  // ---------------------------------------------------------------- the merge only improves

  /** A non-blank column is kept, a blank one takes the alternate's value when that is not blank. */
  predicate KeptText(c: Opt<Text>, a: Opt<Text>, m: Opt<Text>) {
    m == (if NonBlank(c) then c else if NonBlank(a) then a else c)
  }
  predicate KeptWord(c: Opt<Word>, a: Opt<Word>, m: Opt<Word>) {
    m == (if NonBlankWord(c) then c else if NonBlankWord(a) then a else c)
  }
  predicate KeptNumber(c: Opt<int>, a: Opt<int>, m: Opt<int>) {
    m == (if c.Val? then c else a)
  }

  /** Every pipeline column other than status and first_seen_at. */
  predicate KeepsPipeline(c: Job, a: Job, m: Job) {
    KeptNumber(c.score, a.score, m.score) && KeptText(c.reasoning, a.reasoning, m.reasoning) &&
    KeptNumber(c.appliedAt, a.appliedAt, m.appliedAt) && KeptWord(c.stage, a.stage, m.stage) &&
    KeptWord(c.rejectedFromStage, a.rejectedFromStage, m.rejectedFromStage) &&
    KeptNumber(c.rejectedAt, a.rejectedAt, m.rejectedAt) &&
    KeptNumber(c.scoreAttempts, a.scoreAttempts, m.scoreAttempts) &&
    KeptNumber(c.lastScoreAttemptAt, a.lastScoreAttemptAt, m.lastScoreAttemptAt) &&
    KeptText(c.scoreError, a.scoreError, m.scoreError) &&
    KeptText(c.extra.outreach, a.extra.outreach, m.extra.outreach) &&
    KeptText(c.extra.notes, a.extra.notes, m.extra.notes) &&
    KeptText(c.extra.reachedOutAt, a.extra.reachedOutAt, m.extra.reachedOutAt) &&
    KeptText(c.extra.interviewNotes, a.extra.interviewNotes, m.extra.interviewNotes) &&
    KeptText(c.extra.applyComplexity, a.extra.applyComplexity, m.extra.applyComplexity) &&
    KeptNumber(c.extra.claudeScore, a.extra.claudeScore, m.extra.claudeScore) &&
    KeptText(c.extra.claudeReasoning, a.extra.claudeReasoning, m.extra.claudeReasoning) &&
    KeptText(c.extra.rejectionReasoning, a.extra.rejectionReasoning, m.extra.rejectionReasoning)
  }

  function StatusRank(j: Job): nat { Rank(OrPending(Coalesce(j.status, Blank))) }

  /** `archived` never takes over a row that is not archived. */
  function EffectiveRank(c: Job, a: Job): nat {
    if OrPending(Coalesce(a.status, Blank)) == Archived && OrPending(Coalesce(c.status, Blank)) != Archived then 0 else StatusRank(a)
  }

  /**
   * Canonicalizing into a row that the tenant already has: its status rank is the higher of the two and never drops,
   * every non-blank pipeline column is kept, first_seen_at is the earlier date, and score hash, archive reason
   * and identity are untouched.
   */
  lemma FoldOnlyImproves(jobs: Jobs, user: User, rowId: JobId, r: ResolvedJob, alt: Job, now: int)
    requires Owns(jobs, user, rowId)
    ensures var c := jobs[rowId];
            var m := FoldedJobs(jobs, user, rowId, r, alt, now)[rowId];
            StatusRank(m) >= StatusRank(c) && StatusRank(m) >= EffectiveRank(c, alt) &&
            (StatusRank(m) == StatusRank(c) || StatusRank(m) == EffectiveRank(c, alt)) &&
            MergedStatus(c.status, alt.status, m.status) && KeepsPipeline(c, alt, m) &&
            m.firstSeenAt.Val? && m.firstSeenAt.v <= FirstSeenInherit(c).v && m.firstSeenAt.v <= FirstSeenInherit(alt).v &&
            (m.firstSeenAt == FirstSeenInherit(c) || m.firstSeenAt == FirstSeenInherit(alt)) &&
            m.user == c.user && m.globalId == c.globalId && m.createdAt == c.createdAt &&
            m.resumeHash == c.resumeHash && m.archiveReason == c.archiveReason
    ensures forall k :: k in jobs && k != rowId ==>
              k in FoldedJobs(jobs, user, rowId, r, alt, now) && FoldedJobs(jobs, user, rowId, r, alt, now)[k] == jobs[k]
  {
    hide MergedStatus, MergedRow, BackfilledRow, InsertedRow, KeepsPipeline, FoldedJobs, StatusRank, EffectiveRank;
    var c := jobs[rowId];
    var m := MergedRow(BackfilledRow(c, r, alt, now), alt, now);
    FoldedRow(jobs, user, rowId, r, alt, now);
    MergedColumns(c, r, alt, now);
    StatusesMerge(c.status, alt.status);
    RanksGrow(c, alt, m);
  }

  lemma FoldedRow(jobs: Jobs, user: User, rowId: JobId, r: ResolvedJob, alt: Job, now: int)
    requires Owns(jobs, user, rowId)
    ensures FoldedJobs(jobs, user, rowId, r, alt, now) == jobs[rowId := MergedRow(BackfilledRow(jobs[rowId], r, alt, now), alt, now)]
  {
    hide MergedRow, BackfilledRow, InsertedRow;
  }

  lemma MergedColumns(c: Job, r: ResolvedJob, alt: Job, now: int)
    ensures var m := MergedRow(BackfilledRow(c, r, alt, now), alt, now);
            KeepsPipeline(c, alt, m) && m.user == c.user && m.globalId == c.globalId && m.createdAt == c.createdAt &&
            m.resumeHash == c.resumeHash && m.archiveReason == c.archiveReason &&
            m.status == Val(PreferredStatus(Coalesce(c.status, Blank), Coalesce(alt.status, Blank))) &&
            m.firstSeenAt == EarliestDate(FirstSeenInherit(c), FirstSeenInherit(alt))
  {
    hide PreferredStatus, EarliestDate, FirstNonEmpty, Backfilled, KeptText, KeptWord, KeptNumber, MergeText, MergeWord, MergeNumber;
    forall x: Opt<Text>, y: Opt<Text> ensures KeptText(x, y, MergeText(x, y)) { TextKept(x, y); }
    forall x: Opt<Word>, y: Opt<Word> ensures KeptWord(x, y, MergeWord(x, y)) { WordKept(x, y); }
    forall x: Opt<int>, y: Opt<int> ensures KeptNumber(x, y, MergeNumber(x, y)) { NumberKept(x, y); }
  }

  lemma TextKept(c: Opt<Text>, a: Opt<Text>)
    ensures KeptText(c, a, MergeText(c, a))
  {
  }

  lemma WordKept(c: Opt<Word>, a: Opt<Word>)
    ensures KeptWord(c, a, MergeWord(c, a))
  {
  }

  lemma NumberKept(c: Opt<int>, a: Opt<int>)
    ensures KeptNumber(c, a, MergeNumber(c, a))
  {
  }

  lemma RanksGrow(c: Job, a: Job, m: Job)
    requires m.status == Val(PreferredStatus(Coalesce(c.status, Blank), Coalesce(a.status, Blank)))
    ensures StatusRank(m) >= StatusRank(c) && StatusRank(m) >= EffectiveRank(c, a)
    ensures StatusRank(m) == StatusRank(c) || StatusRank(m) == EffectiveRank(c, a)
  {
  }

  // ---------------------------------------------------------------- the merged status, word by word

  /** From the least to the most advanced. */
  const CHAIN: seq<Word> := [Pending, Archived, Closed, Rejected, Responded, Applied]

  /** NULL and the empty text count as pending. */
  function Named(status: Opt<Word>): Word { if status.Null? || status.v == Blank then Pending else status.v }

  /**
   * The later of the two statuses in the chain, except that an archived alternate never displaces a row. A status outside
   * of the chain displaces nothing, and is displaced by closed, rejected, responded and applied.
   */
  ghost predicate MergedStatus(canonical: Opt<Word>, alternate: Opt<Word>, merged: Opt<Word>) {
    (forall i, j :: 0 <= i < 6 && 0 <= j < 6 && CHAIN[i] == Named(canonical) && CHAIN[j] == Named(alternate) ==>
       merged == Val(if j > i && CHAIN[j] != Archived then CHAIN[j] else CHAIN[i])) &&
    (Named(alternate) !in CHAIN ==> merged == Val(Named(canonical))) &&
    (Named(canonical) !in CHAIN && Named(alternate) in CHAIN ==>
       merged == Val(if Named(alternate) in {Closed, Rejected, Responded, Applied} then Named(alternate) else Named(canonical)))
  }

  lemma StatusesMerge(canonical: Opt<Word>, alternate: Opt<Word>)
    ensures MergedStatus(canonical, alternate, Val(PreferredStatus(Coalesce(canonical, Blank), Coalesce(alternate, Blank))))
  {
  }

  /** What the transaction makes of the status of a canonical row that the tenant has, and of its first sighting. */
  lemma CanonicalStatus(db: Db, user: User, altId: JobId, alt: Job, res: Resolution, rowId: JobId)
    requires IsPrimaryResolution(res) && Commits(db, user, altId, alt, res, rowId) && Owns(db.jobs, user, rowId) && rowId != altId
    ensures var c := db.jobs[rowId];
            var after := CanonicalizeJob(db, user, altId, alt, res, rowId).jobs;
            rowId in after && MergedStatus(c.status, alt.status, after[rowId].status) &&
            var seen := if c.firstSeenAt.Val? then c.firstSeenAt.v else c.createdAt;
            var other := if alt.firstSeenAt.Val? then alt.firstSeenAt.v else alt.createdAt;
            after[rowId].firstSeenAt == Val(if other < seen then other else seen)
  {
    hide CanonicalizeJob, Commits, PreferredStatus, MergedStatus;
    RowOf(db, user, altId, alt, res, rowId, rowId);
    StatusesMerge(db.jobs[rowId].status, alt.status);
  }

  /** A content column keeps a non-blank value; a blank one takes the resolved posting's value, else the alternate's. */
  predicate FilledText(c: Opt<Text>, resolved: Text, a: Opt<Text>, m: Opt<Text>) {
    m == (if NonBlank(c) then c else if resolved != EMPTY then Val(resolved) else if NonBlank(a) then a else Val(EMPTY))
  }

  /** The content columns of the canonical row after the fold, whether the row was there (`c`) or is new (all of `c` NULL). */
  predicate ContentFilled(c: Job, r: ResolvedJob, a: Job, m: Job) {
    FilledText(c.title, r.title, a.title, m.title) && FilledText(c.company, r.company, a.company, m.company) &&
    FilledText(c.url, r.url, a.url, m.url) && FilledText(c.location, r.location, a.location, m.location) &&
    FilledText(c.description, r.description, a.description, m.description) &&
    m.platform == (if NonBlankWord(c.platform) then c.platform else if r.platform != Blank then Val(r.platform)
                   else Val(Coalesce(a.platform, Blank))) &&
    m.postedAt == (if c.postedAt.Val? then c.postedAt else if r.postedAt.Val? then r.postedAt else a.postedAt)
  }

  lemma FoldFillsContent(jobs: Jobs, user: User, rowId: JobId, r: ResolvedJob, alt: Job, now: int, empty: Job)
    requires rowId in jobs ==> jobs[rowId].user == user
    requires rowId !in jobs ==> !exists k :: k in jobs && jobs[k].user == user && jobs[k].globalId == Val(r.id)
    requires empty.title.Null? && empty.company.Null? && empty.url.Null? && empty.location.Null? && empty.description.Null? &&
             empty.platform.Null? && empty.postedAt.Null?
    ensures rowId in FoldedJobs(jobs, user, rowId, r, alt, now)
    ensures ContentFilled(if rowId in jobs then jobs[rowId] else empty, r, alt, FoldedJobs(jobs, user, rowId, r, alt, now)[rowId])
  {
    hide MergeText, MergeWord, PreferredStatus, EarliestDate, NullIfBlank, NullIfBlankWord, OrPending;
  }

  /** The alternate's pipeline columns, blank ones as NULL, an unknown status as `pending` and missing attempts as none. */
  predicate InheritsPipeline(a: Job, m: Job) {
    m.status == Val(OrPending(Coalesce(a.status, Blank))) && m.stage == NullIfBlankWord(a.stage) &&
    m.score == a.score && m.reasoning == NullIfBlank(a.reasoning) && m.scoreError == NullIfBlank(a.scoreError) &&
    m.scoreAttempts == Val(Coalesce(a.scoreAttempts, 0)) && m.lastScoreAttemptAt == a.lastScoreAttemptAt &&
    m.appliedAt == a.appliedAt && m.rejectedFromStage == NullIfBlankWord(a.rejectedFromStage) && m.rejectedAt == a.rejectedAt &&
    m.extra.outreach == NullIfBlank(a.extra.outreach) && m.extra.notes == NullIfBlank(a.extra.notes) &&
    m.extra.reachedOutAt == NullIfBlank(a.extra.reachedOutAt) && m.extra.interviewNotes == NullIfBlank(a.extra.interviewNotes) &&
    m.extra.applyComplexity == NullIfBlank(a.extra.applyComplexity) && m.extra.claudeScore == a.extra.claudeScore &&
    m.extra.claudeReasoning == NullIfBlank(a.extra.claudeReasoning) && m.extra.rejectionReasoning == NullIfBlank(a.extra.rejectionReasoning) &&
    m.firstSeenAt == FirstSeenInherit(a)
  }

  /**
   * A canonical row that did not exist is born with every pipeline column of the alternate; the merge that follows the
   * insert adds nothing. Archive reason and resume hash are not inherited, and no other row changes.
   */
  lemma FoldInherits(jobs: Jobs, user: User, rowId: JobId, r: ResolvedJob, alt: Job, now: int)
    requires rowId !in jobs && !exists k :: k in jobs && jobs[k].user == user && jobs[k].globalId == Val(r.id)
    ensures FoldedJobs(jobs, user, rowId, r, alt, now).Keys == jobs.Keys + {rowId}
    ensures var m := FoldedJobs(jobs, user, rowId, r, alt, now)[rowId];
            m.user == user && m.globalId == Val(r.id) && m.createdAt == now && InheritsPipeline(alt, m) &&
            m.archiveReason.Null? && m.resumeHash.Null?
    ensures forall k :: k in jobs ==> FoldedJobs(jobs, user, rowId, r, alt, now)[k] == jobs[k]
  {
    hide FirstNonEmpty, Backfilled;
    assert InheritsPipeline(alt, MergedRow(BackfilledRow(InsertedRow(user, r, alt, now), r, alt, now), alt, now));
  }

  /** Merging the same alternate a second time changes no column but the touch stamp. */
  lemma FoldTwice(jobs: Jobs, user: User, rowId: JobId, r: ResolvedJob, alt: Job, now: int, later: int)
    requires Owns(FoldedJobs(jobs, user, rowId, r, alt, now), user, rowId)
    ensures var once := FoldedJobs(jobs, user, rowId, r, alt, now);
            FoldedJobs(once, user, rowId, r, alt, later) == once[rowId := once[rowId].(updatedAt := later)]
  {
    var once := FoldedJobs(jobs, user, rowId, r, alt, now);
    var twice := FoldedJobs(once, user, rowId, r, alt, later);
    assert twice[rowId] == once[rowId].(updatedAt := later);
  }

  // ---------------------------------------------------------------- events and rejection rows are only re-keyed

  function EventsOf(es: seq<Event>, user: User, job: JobId): multiset<Event> {
    if es == [] then multiset{}
    else
      var last := es[|es| - 1];
      EventsOf(es[..|es| - 1], user, job) + if last.user == user && last.job == job then multiset{last} else multiset{}
  }

  /** The multiset with every event's job set to `job`. */
  function RenamedOf(es: seq<Event>, user: User, from: JobId, to: JobId): multiset<Event> {
    if es == [] then multiset{}
    else
      var last := es[|es| - 1];
      RenamedOf(es[..|es| - 1], user, from, to) +
      if last.user == user && last.job == from then multiset{last.(job := to)} else multiset{}
  }

  lemma RekeyLast(es: seq<Event>, user: User, from: JobId, to: JobId)
    requires es != []
    ensures var after := RekeyEvents(es, user, from, to);
            |after| == |es| && after[..|es| - 1] == RekeyEvents(es[..|es| - 1], user, from, to) &&
            after[|es| - 1] == Rekey(es[|es| - 1], user, from, to)
  {
  }

  /** After the re-keying the canonical row has its own events and the alternate's, and the alternate has none. */
  lemma {:induction false} RekeyGathers(es: seq<Event>, user: User, from: JobId, to: JobId)
    requires from != to
    ensures EventsOf(RekeyEvents(es, user, from, to), user, to) == EventsOf(es, user, to) + RenamedOf(es, user, from, to)
    ensures EventsOf(RekeyEvents(es, user, from, to), user, from) == multiset{}
  {
    if es != [] {
      hide RekeyEvents;
      RekeyGathers(es[..|es| - 1], user, from, to);
      RekeyLast(es, user, from, to);
    }
  }

  lemma LastApart(es: seq<Event>)
    requires es != []
    ensures es == es[..|es| - 1] + [es[|es| - 1]]
  {
  }

  lemma {:induction false} RekeySpares(es: seq<Event>, user: User, from: JobId, to: JobId, u: User, other: JobId)
    requires u != user || (other != from && other != to)
    ensures EventsOf(RekeyEvents(es, user, from, to), u, other) == EventsOf(es, u, other)
  {
    if es != [] {
      hide RekeyEvents, EventsOf;
      var n := |es| - 1;
      RekeySpares(es[..n], user, from, to, u, other);
      RekeyLast(es, user, from, to);
      EventsOfAppend(es[..n], es[n], u, other);
      EventsOfAppend(RekeyEvents(es[..n], user, from, to), Rekey(es[n], user, from, to), u, other);
      LastApart(es);
      LastApart(RekeyEvents(es, user, from, to));
    } else {
      assert RekeyEvents(es, user, from, to) == es;
    }
  }

  /** Each event is renamed or kept, in place. */
  predicate EventsRenamed(before: seq<Event>, after: seq<Event>, altId: JobId, rowId: JobId) {
    |after| == |before| &&
    forall i :: 0 <= i < |before| ==> after[i] == before[i] || (before[i].job == altId && after[i] == before[i].(job := rowId))
  }

  /** The tenant's rejection rows of the alternate are re-keyed in place, all others kept. */
  predicate RejectionsRekeyed(before: seq<Rejection>, after: seq<Rejection>, user: User, altId: JobId, rowId: JobId) {
    |after| == |before| &&
    forall i :: 0 <= i < |before| ==>
      after[i].user == before[i].user && after[i].message == before[i].message &&
      after[i].matchedJob == if before[i].user == user && before[i].matchedJob == Val(altId) then Val(rowId) else before[i].matchedJob
  }

  lemma RekeyRenames(es: seq<Event>, user: User, from: JobId, to: JobId)
    ensures EventsRenamed(es, RekeyEvents(es, user, from, to), from, to)
  {
  }

  lemma RekeyRejectionsRekeys(rs: seq<Rejection>, user: User, from: JobId, to: JobId)
    ensures RejectionsRekeyed(rs, RekeyRejections(rs, user, from, to), user, from, to)
  {
  }

  lemma EventsOfAppend(es: seq<Event>, e: Event, user: User, job: JobId)
    ensures EventsOf(es + [e], user, job) == EventsOf(es, user, job) + if e.user == user && e.job == job then multiset{e} else multiset{}
  {
    assert (es + [e])[..|es|] == es;
  }

  /** Canonicalizing conserves the event log: old events in order, the alternate's renamed, one ats_resolution appended. */
  lemma CanonicalizeConserves(db: Db, user: User, altId: JobId, alt: Job, res: Resolution, rowId: JobId, u: User, other: JobId)
    requires IsPrimaryResolution(res) && Commits(db, user, altId, alt, res, rowId) && rowId != altId
    requires u != user || (other != altId && other != rowId)
    ensures var after := CanonicalizeJob(db, user, altId, alt, res, rowId);
            var note := ResolutionEvent(db, user, rowId, alt, res.platform);
            |after.events| == |db.events| + 1 && after.events[|db.events|] == note &&
            EventsRenamed(db.events, after.events[..|db.events|], altId, rowId) &&
            EventsOf(after.events, user, rowId)
              == EventsOf(db.events, user, rowId) + RenamedOf(db.events, user, altId, rowId) + multiset{note} &&
            EventsOf(after.events, user, altId) == multiset{} &&
            EventsOf(after.events, u, other) == EventsOf(db.events, u, other) &&
            RejectionsRekeyed(db.rejections, after.rejections, user, altId, rowId)
  {
    hide FoldedJobs, Aliased, ArchiveAlternate, Commits, EventsRenamed, RejectionsRekeyed, EventsOf, RenamedOf, RekeyEvents, RekeyRejections;
    var es := RekeyEvents(db.events, user, altId, rowId);
    var note := ResolutionEvent(db, user, rowId, alt, res.platform);
    RekeyRenames(db.events, user, altId, rowId);
    RekeyRejectionsRekeys(db.rejections, user, altId, rowId);
    RekeyGathers(db.events, user, altId, rowId);
    RekeySpares(db.events, user, altId, rowId, u, other);
    EventsOfAppend(es, note, user, rowId);
    EventsOfAppend(es, note, user, altId);
    EventsOfAppend(es, note, u, other);
    RekeyCount(db.events, user, altId, rowId);
    assert (es + [note])[..|es|] == es;
  }

  lemma RekeyCount(es: seq<Event>, user: User, from: JobId, to: JobId)
    ensures |RekeyEvents(es, user, from, to)| == |es|
  {
  }

  /**
   * What becomes of the alternate, by the resolution. With a primary posting it is archived as canonicalized; an unsupported
   * one archives it as such and logs that; and otherwise only the alias is recorded. Nothing is done without an id.
   */
  lemma AlternateOutcome(db: Db, user: User, altId: JobId, alt: Job, res: Resolution, rowId: JobId)
    requires altId in db.jobs && db.jobs[altId].user == user
    ensures var after := CanonicalizeJob(db, user, altId, alt, res, rowId);
            var primary := res.status == Primary && res.job.Val? && res.job.v.id != EMPTY;
            altId in after.jobs &&
            (altId == EMPTY ==> after == db) &&
            (altId != EMPTY && primary && rowId in db.jobs ==>
               after.jobs[altId].status == Val(Archived) && after.jobs[altId].archiveReason == Val(Canonicalized) &&
               |after.events| == |db.events| + 1 &&
               after.events[|db.events|] == Event(user, rowId, AtsResolution, NullableWord(Coalesce(alt.platform, Blank)), NullableWord(res.platform), db.now) &&
               altId in after.aliases && after.aliases[altId].canonical == Val(rowId)) &&
            (altId != EMPTY && !primary && (res.job.Val? && res.job.v.id != EMPTY ==> res.job.v.id in db.jobs) ==>
               altId in after.aliases &&
               after.aliases[altId].canonical == (if res.job.Val? && res.job.v.id != EMPTY then Val(res.job.v.id) else Null) &&
               if res.status == Unsupported
               then after.jobs == db.jobs[altId := db.jobs[altId].(status := Val(Archived), archiveReason := Val(UnsupportedAlternate), updatedAt := db.now)] &&
                    after.events == db.events + [Event(user, altId, AtsResolution, NullableWord(Coalesce(alt.platform, Blank)), Val(UnsupportedUrl), db.now)]
               else after.jobs == db.jobs && after.events == db.events)
  {
    hide MergedRow, BackfilledRow, InsertedRow;
    RowOf(db, user, altId, alt, res, rowId, altId);
  }

  /**
   * The row of the posting itself is archived by the transaction exactly when it is also the alternate:
   * a resolution that points back at the alternate's own row archives what it just merged.
   */
  lemma SelfResolutionArchives(db: Db, user: User, altId: JobId, alt: Job, res: Resolution, rowId: JobId)
    requires IsPrimaryResolution(res) && Commits(db, user, altId, alt, res, rowId)
    requires Owns(db.jobs, user, rowId) && !Is(db.jobs[rowId].status, Archived)
    ensures Is(CanonicalizeJob(db, user, altId, alt, res, rowId).jobs[rowId].status, Archived) <==> rowId == altId
  {
  }

  // ---------------------------------------------------------------- merge order

  datatype StatusAndDate = StatusAndDate(status: Word, firstSeen: Opt<int>)

  function Project(j: Job): StatusAndDate { StatusAndDate(Coalesce(j.status, Blank), FirstSeenInherit(j)) }

  function MergeInto(x: StatusAndDate, alt: Job): StatusAndDate {
    StatusAndDate(PreferredStatus(x.status, Coalesce(alt.status, Blank)), EarliestDate(x.firstSeen, FirstSeenInherit(alt)))
  }

  function FoldInto(x: StatusAndDate, alts: seq<Job>): StatusAndDate
    decreases |alts|
  {
    if alts == [] then x else FoldInto(MergeInto(x, alts[0]), alts[1..])
  }

  /** The canonical row after merging a list of alternates one by one. */
  function MergeAll(c: Job, alts: seq<Job>, now: int): Job
    decreases |alts|
  {
    if alts == [] then c else MergeAll(MergedRow(c, alts[0], now), alts[1..], now)
  }

  lemma {:induction false} MergeAllProjects(c: Job, alts: seq<Job>, now: int)
    ensures Project(MergeAll(c, alts, now)) == FoldInto(Project(c), alts)
    ensures alts != [] ==> MergeAll(c, alts, now).firstSeenAt == FoldInto(Project(c), alts).firstSeen
    ensures alts != [] ==> MergeAll(c, alts, now).status == Val(FoldInto(Project(c), alts).status)
    decreases |alts|
  {
    if alts != [] {
      MergeAllProjects(MergedRow(c, alts[0], now), alts[1..], now);
    }
  }

  lemma MergesCommute(x: StatusAndDate, a: Job, b: Job)
    ensures MergeInto(MergeInto(x, a), b) == MergeInto(MergeInto(x, b), a)
  {
  }

  lemma {:induction false} MoveToFront(x: StatusAndDate, alts: seq<Job>, i: nat)
    requires i < |alts|
    ensures FoldInto(x, alts) == FoldInto(MergeInto(x, alts[i]), alts[..i] + alts[i + 1..])
    decreases i
  {
    if i > 0 {
      var y := MergeInto(x, alts[0]);
      var rest := alts[1..];
      MoveToFront(y, rest, i - 1);
      MergesCommute(x, alts[0], alts[i]);
      var moved := alts[..i] + alts[i + 1..];
      assert moved[0] == alts[0];
      assert moved[1..] == rest[..i - 1] + rest[i..];
    } else {
      assert alts[..0] + alts[1..] == alts[1..];
    }
  }

  lemma DropMatched<T>(a: seq<T>, b: seq<T>, i: nat)
    requires a != [] && i < |b| && b[i] == a[0] && multiset(a) == multiset(b)
    ensures multiset(a[1..]) == multiset(b[..i] + b[i + 1..])
  {
    assert a == [a[0]] + a[1..];
    assert b == b[..i] + [b[i]] + b[i + 1..];
    assert multiset(a[1..]) == multiset(a) - multiset{a[0]};
    assert multiset(b[..i] + b[i + 1..]) == multiset(b) - multiset{a[0]};
  }

  lemma {:induction false} FoldPermuted(x: StatusAndDate, a: seq<Job>, b: seq<Job>)
    requires multiset(a) == multiset(b)
    ensures FoldInto(x, a) == FoldInto(x, b)
    decreases |a|
  {
    if a == [] {
      assert |b| == |multiset(b)| == 0;
    } else {
      assert a[0] in multiset(b);
      var i: nat :| i < |b| && b[i] == a[0];
      DropMatched(a, b, i);
      FoldPermuted(MergeInto(x, a[0]), a[1..], b[..i] + b[i + 1..]);
      MoveToFront(x, b, i);
    }
  }

  /** Status and first_seen_at after merging alternates do not depend on the order in which they are merged. */
  lemma MergeOrderIrrelevant(c: Job, a: seq<Job>, b: seq<Job>, now: int)
    requires multiset(a) == multiset(b)
    ensures MergeAll(c, a, now).status == MergeAll(c, b, now).status
    ensures MergeAll(c, a, now).firstSeenAt == MergeAll(c, b, now).firstSeenAt
  {
    FoldPermuted(Project(c), a, b);
    MergeAllProjects(c, a, now);
    MergeAllProjects(c, b, now);
    assert |a| == |multiset(a)| == |multiset(b)| == |b|;
  }

  /** The column's own value when it is filled, else that of the first alternate with a filled one, else its own. */
  function FirstFilled<T>(col: Job -> Opt<T>, filled: Opt<T> -> bool, c: Job, alts: seq<Job>): Opt<T>
    decreases |alts|
  {
    if filled(col(c)) || alts == [] then col(c)
    else if filled(col(alts[0])) then col(alts[0])
    else FirstFilled(col, filled, c, alts[1..])
  }

  ghost predicate MergesColumn<T(!new)>(col: Job -> Opt<T>, filled: Opt<T> -> bool) {
    forall x: Job, a: Job, now: int {:trigger MergedRow(x, a, now)} ::
      col(MergedRow(x, a, now)) == if !filled(col(x)) && filled(col(a)) then col(a) else col(x)
  }

  lemma {:induction false} FilledFirst<T(!new)>(col: Job -> Opt<T>, filled: Opt<T> -> bool, c: Job, alts: seq<Job>, now: int)
    requires MergesColumn(col, filled)
    ensures col(MergeAll(c, alts, now)) == FirstFilled(col, filled, c, alts)
    decreases |alts|
  {
    hide MergedRow;
    if alts != [] {
      var m := MergedRow(c, alts[0], now);
      FilledFirst(col, filled, m, alts[1..], now);
      SameColumn(col, filled, m, c, alts[1..]);
    }
  }

  lemma {:induction false} SameColumn<T(!new)>(col: Job -> Opt<T>, filled: Opt<T> -> bool, x: Job, y: Job, alts: seq<Job>)
    ensures filled(col(x)) ==> FirstFilled(col, filled, x, alts) == col(x)
    ensures col(x) == col(y) ==> FirstFilled(col, filled, x, alts) == FirstFilled(col, filled, y, alts)
    decreases |alts|
  {
    if alts != [] { SameColumn(col, filled, x, y, alts[1..]); }
  }

  /**
   * All other pipeline columns do depend on the order: after merging any list of alternates each holds its own value,
   * or else that of the first alternate in the list that has one.
   */
  lemma FirstFilledWins(c: Job, alts: seq<Job>, now: int)
    ensures var m := MergeAll(c, alts, now);
            m.stage == FirstFilled((j: Job) => j.stage, NonBlankWord, c, alts) &&
            m.rejectedFromStage == FirstFilled((j: Job) => j.rejectedFromStage, NonBlankWord, c, alts)
    ensures var m := MergeAll(c, alts, now);
            m.score == FirstFilled((j: Job) => j.score, Given, c, alts) &&
            m.appliedAt == FirstFilled((j: Job) => j.appliedAt, Given, c, alts) &&
            m.rejectedAt == FirstFilled((j: Job) => j.rejectedAt, Given, c, alts) &&
            m.scoreAttempts == FirstFilled((j: Job) => j.scoreAttempts, Given, c, alts) &&
            m.lastScoreAttemptAt == FirstFilled((j: Job) => j.lastScoreAttemptAt, Given, c, alts) &&
            m.extra.claudeScore == FirstFilled((j: Job) => j.extra.claudeScore, Given, c, alts)
    ensures var m := MergeAll(c, alts, now);
            m.reasoning == FirstFilled((j: Job) => j.reasoning, NonBlank, c, alts) &&
            m.scoreError == FirstFilled((j: Job) => j.scoreError, NonBlank, c, alts) &&
            m.extra.outreach == FirstFilled((j: Job) => j.extra.outreach, NonBlank, c, alts) &&
            m.extra.notes == FirstFilled((j: Job) => j.extra.notes, NonBlank, c, alts) &&
            m.extra.reachedOutAt == FirstFilled((j: Job) => j.extra.reachedOutAt, NonBlank, c, alts) &&
            m.extra.interviewNotes == FirstFilled((j: Job) => j.extra.interviewNotes, NonBlank, c, alts) &&
            m.extra.applyComplexity == FirstFilled((j: Job) => j.extra.applyComplexity, NonBlank, c, alts) &&
            m.extra.claudeReasoning == FirstFilled((j: Job) => j.extra.claudeReasoning, NonBlank, c, alts) &&
            m.extra.rejectionReasoning == FirstFilled((j: Job) => j.extra.rejectionReasoning, NonBlank, c, alts)
  {
    FilledFirst((j: Job) => j.stage, NonBlankWord, c, alts, now);
    FilledFirst((j: Job) => j.rejectedFromStage, NonBlankWord, c, alts, now);
    FilledFirst((j: Job) => j.score, Given, c, alts, now);
    FilledFirst((j: Job) => j.appliedAt, Given, c, alts, now);
    FilledFirst((j: Job) => j.rejectedAt, Given, c, alts, now);
    FilledFirst((j: Job) => j.scoreAttempts, Given, c, alts, now);
    FilledFirst((j: Job) => j.lastScoreAttemptAt, Given, c, alts, now);
    FilledFirst((j: Job) => j.extra.claudeScore, Given, c, alts, now);
    FilledFirst((j: Job) => j.reasoning, NonBlank, c, alts, now);
    FilledFirst((j: Job) => j.scoreError, NonBlank, c, alts, now);
    FilledFirst((j: Job) => j.extra.outreach, NonBlank, c, alts, now);
    FilledFirst((j: Job) => j.extra.notes, NonBlank, c, alts, now);
    FilledFirst((j: Job) => j.extra.reachedOutAt, NonBlank, c, alts, now);
    FilledFirst((j: Job) => j.extra.interviewNotes, NonBlank, c, alts, now);
    FilledFirst((j: Job) => j.extra.applyComplexity, NonBlank, c, alts, now);
    FilledFirst((j: Job) => j.extra.claudeReasoning, NonBlank, c, alts, now);
    FilledFirst((j: Job) => j.extra.rejectionReasoning, NonBlank, c, alts, now);
  }

  predicate Given(n: Opt<int>) { n.Val? }
}
