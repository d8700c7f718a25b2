/** The tables that the transactions of `internal/db` read and write. */
module Tables {
  import opened Sql

  // Identifiers and free text are numbers; the number 0 is the empty string.
  type JobId = nat
  type GlobalId = nat
  type User = nat
  type BatchName = nat
  type Model = nat
  type Text = nat

  const EMPTY: Text := 0

  /** The reserved pseudo-tenant that tallies calls made on the shared host key. */
  const HOST_KEY_USER: User := 0

  /** The texts of the status, stage, platform and event-value columns. */
  datatype Word =
    | Blank
    | Pending | Applied | Responded | Archived | Closed | Rejected | Ghosted
    | PhoneScreen | Interview | Onsite | Offer
    | Ashby | Greenhouse | Lever | Workday
    | UnsupportedUrl
    | Other(tag: nat)

  const PIPELINE: set<Word> := {Applied, Responded}
  const TRACKED: set<Word> := {PhoneScreen, Interview, Onsite, Offer}
  const PRIMARY: set<Word> := {Ashby, Greenhouse, Lever, Workday}

  /** The values `SetPipelineStage` is called with (the caller validates them). */
  const PIPELINE_VALUES: set<Word> :=
    {Blank, Applied, PhoneScreen, Interview, Onsite, Offer, Closed, Rejected, Ghosted}

  datatype Reason =
    | DedupRepost | DedupPending | DedupAlternate | Canonicalized | UnsupportedAlternate
    | LowScore | PrefilterNonUS | PrefilterLocation | StaleUnscored
    | OtherReason(tag: nat)

  /** Columns that only the merge of an alternate into its canonical row reads. */
  datatype Extra = Extra(
    outreach: Opt<Text>, notes: Opt<Text>, reachedOutAt: Opt<Text>, interviewNotes: Opt<Text>,
    applyComplexity: Opt<Text>, claudeScore: Opt<int>, claudeReasoning: Opt<Text>,
    rejectionReasoning: Opt<Text>)

  /** A row of `jobs`. `title` and `company` hold the trimmed, lower-cased text. */
  datatype Job = Job(
    user: User, globalId: Opt<GlobalId>,
    title: Opt<Text>, company: Opt<Text>, url: Opt<Text>, platform: Opt<Word>, location: Opt<Text>,
    postedAt: Opt<int>, description: Opt<Text>,
    createdAt: int, updatedAt: int, firstSeenAt: Opt<int>,
    status: Opt<Word>, stage: Opt<Word>,
    score: Opt<int>, reasoning: Opt<Text>, resumeHash: Opt<Text>,
    scoreError: Opt<Text>, scoreAttempts: Opt<int>, lastScoreAttemptAt: Opt<int>,
    archiveReason: Opt<Reason>, appliedAt: Opt<int>,
    rejectedFromStage: Opt<Word>, rejectedAt: Opt<int>,
    extra: Extra)

  type Jobs = map<JobId, Job>

  datatype EventKind = StageChange | StatusChange | AtsResolution | OtherEvent(tag: nat)

  /** A row of `events`; the table is kept in insertion order. */
  datatype Event = Event(user: User, job: JobId, kind: EventKind, from: Opt<Word>, to: Opt<Word>, at: int)

  datatype BatchState = Submitted | Succeeded | Failed | Cancelled | Expired | OtherState(tag: nat)

  datatype BatchKey = BatchKey(user: User, name: BatchName)
  datatype Batch = Batch(state: BatchState, model: Model, resumeHash: Text, jobCount: nat, error: Opt<Text>, createdAt: int)
  datatype Member = Member(batch: BatchKey, job: JobId)

  datatype Usage = Usage(calls: int, prompt: int, cachedPrompt: int, candidates: int, total: int) {
    function Plus(that: Usage): Usage {
      Usage(calls + that.calls, prompt + that.prompt, cachedPrompt + that.cachedPrompt,
            candidates + that.candidates, total + that.total)
    }
  }
  datatype UsageKey = UsageKey(user: User, date: int, model: Model)

  /** A row of `rejection_email_log`; only the matched job matters here. */
  datatype Rejection = Rejection(user: User, matchedJob: Opt<JobId>, message: Text)

  /** A row of `job_aliases`; the evidence is its JSON text. */
  datatype Alias = Alias(
    user: User, canonical: Opt<JobId>, originalPlatform: Opt<Word>, originalUrl: Opt<Text>,
    resolvedPlatform: Opt<Word>, resolvedUrl: Opt<Text>, status: Word, confidence: Opt<real>, evidence: Text, updatedAt: int)

  /** The tenant-side tables and the database clock. */
  datatype Db = Db(
    now: int,
    jobs: Jobs,
    events: seq<Event>,
    batches: map<BatchKey, Batch>,
    members: set<Member>,
    usage: map<UsageKey, Usage>,
    rejections: seq<Rejection>,
    aliases: map<JobId, Alias>)

  /** `nullable` in repository.go: the empty string is stored as NULL. */
  function Nullable(t: Text): Opt<Text> { if t == EMPTY then Null else Val(t) }

  function NullableWord(w: Word): Opt<Word> { if w == Blank then Null else Val(w) }

  /** `COALESCE(LOWER(platform), '') IN ('ashby', 'greenhouse', 'lever', 'workday')`. */
  predicate IsPrimary(j: Job) { Coalesce(j.platform, Blank) in PRIMARY }

  /** The row after an automatic archive. */
  function AutoArchive(j: Job, reason: Reason, now: int): Job {
    j.(status := Val(Archived), archiveReason := Val(reason), updatedAt := now)
  }

  /** `id = ? AND user_id = ?`. */
  predicate Owns(jobs: Jobs, user: User, id: JobId) { id in jobs && jobs[id].user == user }
}
