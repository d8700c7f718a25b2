/** The single-statement transactions of scoring.go, maintenance.go and rescore.go that write score and status columns. */
module Scoring {
  import opened Sql
  import opened Tables

  /** UpdateJobScore, and UpdateJobScoreForResume when `hash` is not empty. */
  function ScoreJob(jobs: Jobs, user: User, id: JobId, score: int, reasoning: Text, hash: Text, now: int): Jobs {
    if !Owns(jobs, user, id) then jobs
    else
      var j := jobs[id].(score := Val(score), reasoning := Val(reasoning), scoreError := Null, updatedAt := now);
      jobs[id := if hash == EMPTY then j else j.(resumeHash := Val(hash))]
  }

  function MarkAttempt(jobs: Jobs, user: User, id: JobId, now: int): Jobs {
    if !Owns(jobs, user, id) then jobs
    else jobs[id := jobs[id].(scoreAttempts := Val(Coalesce(jobs[id].scoreAttempts, 0) + 1),
                              lastScoreAttemptAt := Val(now), scoreError := Null, updatedAt := now)]
  }

  function MarkFailure(jobs: Jobs, user: User, id: JobId, message: Text, now: int): Jobs {
    if !Owns(jobs, user, id) then jobs
    else jobs[id := jobs[id].(scoreError := Val(message), updatedAt := now)]
  }

  /** Pending rows whose kept score was computed against a resume other than `current`. */
  predicate IsStale(j: Job, user: User, current: Text) {
    j.user == user && Is(j.status, Pending) && j.score.Val? && j.resumeHash.Val? && j.resumeHash.v != current
  }

  function StaleScores(jobs: Jobs, user: User, current: Text): set<JobId> {
    if current == EMPTY then {} else set id | id in jobs && IsStale(jobs[id], user, current)
  }

  predicate RequeueHit(j: Job, user: User, current: Text, minScore: int) {
    current != EMPTY && IsStale(j, user, current) && j.score.v >= minScore
  }

  function RequeueStale(jobs: Jobs, user: User, current: Text, minScore: int, now: int): Jobs {
    map id | id in jobs ::
      if RequeueHit(jobs[id], user, current, minScore)
      then jobs[id].(score := Null, reasoning := Null, resumeHash := Null, scoreError := Null, updatedAt := now)
      else jobs[id]
  }

  function ArchiveLowScore(jobs: Jobs, user: User, id: JobId, threshold: int, now: int): Jobs {
    if Owns(jobs, user, id) && Is(jobs[id].status, Pending) && jobs[id].score.Val? && jobs[id].score.v <= threshold
    then jobs[id := AutoArchive(jobs[id], LowScore, now)]
    else jobs
  }

  predicate PrefilterHit(jobs: Jobs, user: User, id: JobId) {
    Owns(jobs, user, id) && Is(jobs[id].status, Pending) && jobs[id].score.Null?
  }

  function ArchivePrefiltered(jobs: Jobs, user: User, id: JobId, reason: Reason, now: int): Jobs {
    if PrefilterHit(jobs, user, id) then jobs[id := AutoArchive(jobs[id], reason, now)] else jobs
  }

  const DAY := 86400

  /** `COALESCE(julianday(posted_at), julianday(first_seen_at)) < julianday('now') - days`; both NULL compares to nothing. */
  predicate StaleHit(j: Job, user: User, days: int, now: int) {
    var age := if j.postedAt.Val? then j.postedAt else j.firstSeenAt;
    j.user == user && Is(j.status, Pending) && j.score.Null? && age.Val? && age.v < now - days * DAY
  }

  function ArchiveStale(jobs: Jobs, user: User, days: int, now: int): Jobs {
    map id | id in jobs :: if StaleHit(jobs[id], user, days, now) then AutoArchive(jobs[id], StaleUnscored, now) else jobs[id]
  }

  const REVIVABLE: set<Reason> := {LowScore, StaleUnscored}

  predicate UnarchiveHit(jobs: Jobs, user: User, ids: seq<JobId>, threshold: int, id: JobId)
    requires id in jobs
  {
    var j := jobs[id];
    id in ids && j.user == user && Is(j.status, Archived) && j.score.Val? && j.score.v > threshold
    && j.archiveReason.Val? && j.archiveReason.v in REVIVABLE
  }

  function Unarchive(jobs: Jobs, user: User, ids: seq<JobId>, threshold: int, now: int): Jobs {
    map id | id in jobs ::
      if UnarchiveHit(jobs, user, ids, threshold, id)
      then jobs[id].(status := Val(Pending), archiveReason := Null, updatedAt := now)
      else jobs[id]
  }

  // ---------------------------------------------------------------- thresholds and windows, over several transactions

  /** A low score archived, the row scored again, and the re-score's sweep over it with the same threshold. */
  function Rescored(jobs: Jobs, user: User, id: JobId, score: int, text: Text, hash: Text, threshold: int, now: int): Jobs {
    Unarchive(ScoreJob(jobs, user, id, score, text, hash, now), user, [id], threshold, now)
  }

  /** A pending row with a score ends archived exactly when neither score is above the threshold. */
  lemma LowScoreThenRescore(jobs: Jobs, user: User, id: JobId, score: int, text: Text, hash: Text, threshold: int, now: int)
    requires id in jobs && jobs[id].user == user && jobs[id].status == Val(Pending) && jobs[id].score.Val?
    ensures var low := ArchiveLowScore(jobs, user, id, threshold, now);
            var after := Rescored(low, user, id, score, text, hash, threshold, now);
            id in after && after[id].score == Val(score) &&
            (low[id].status == Val(Archived) <==> jobs[id].score.v <= threshold) &&
            (jobs[id].score.v <= threshold && score <= threshold ==> after[id].status == Val(Archived) && after[id].archiveReason == Val(LowScore)) &&
            (jobs[id].score.v <= threshold && score > threshold ==> after[id].status == Val(Pending) && after[id].archiveReason.Null?) &&
            (jobs[id].score.v > threshold ==> after[id].status == Val(Pending) && after[id].archiveReason == jobs[id].archiveReason)
  {
  }

  /** When the posting appeared: by its own date, else by its first sighting. */
  function AppearedAt(j: Job): Opt<int> { if j.postedAt.Val? then j.postedAt else j.firstSeenAt }

  /** A pending row without a score ends archived exactly when it is older than the window and its late score is not above the threshold. */
  lemma StaleThenRescore(jobs: Jobs, user: User, id: JobId, days: int, score: int, text: Text, hash: Text, threshold: int, now: int)
    requires id in jobs && jobs[id].user == user && jobs[id].status == Val(Pending) && jobs[id].score.Null?
    ensures var aged := AppearedAt(jobs[id]).Val? && now - AppearedAt(jobs[id]).v > days * 24 * 3600;
            var swept := ArchiveStale(jobs, user, days, now);
            var after := Rescored(swept, user, id, score, text, hash, threshold, now);
            id in after && (swept[id].status == Val(Archived) <==> aged) &&
            (aged && score <= threshold ==> after[id].status == Val(Archived) && after[id].archiveReason == Val(StaleUnscored)) &&
            (aged && score > threshold ==> after[id].status == Val(Pending) && after[id].archiveReason.Null?) &&
            (!aged ==> after[id].status == Val(Pending) && after[id].archiveReason == jobs[id].archiveReason)
  {
  }

  /** A row that the location prefilter took is not revived by any score; one that has a score already is not taken. */
  lemma PrefilteredThenRescore(jobs: Jobs, user: User, id: JobId, reason: Reason, score: int, text: Text, hash: Text, threshold: int, now: int)
    requires id in jobs && jobs[id].user == user && jobs[id].status == Val(Pending) && reason in {PrefilterNonUS, PrefilterLocation}
    ensures var after := Rescored(ArchivePrefiltered(jobs, user, id, reason, now), user, id, score, text, hash, threshold, now);
            id in after &&
            (jobs[id].score.Null? ==> after[id].status == Val(Archived) && after[id].archiveReason == Val(reason)) &&
            (jobs[id].score.Val? ==> after[id].status == Val(Pending) && after[id].archiveReason == jobs[id].archiveReason)
  {
  }

  /** The sweep revives a row only when it is listed, the tenant's, archived for a low score or as stale, and scored above the threshold. */
  lemma RevivedExactly(jobs: Jobs, user: User, ids: seq<JobId>, threshold: int, now: int, id: JobId)
    requires id in jobs
    ensures var j := jobs[id];
            Unarchive(jobs, user, ids, threshold, now)[id] ==
            if (exists i :: 0 <= i < |ids| && ids[i] == id) && j.user == user && j.status == Val(Archived) &&
               (j.archiveReason == Val(LowScore) || j.archiveReason == Val(StaleUnscored)) && j.score.Val? && threshold < j.score.v
            then j.(status := Val(Pending), archiveReason := Null, updatedAt := now) else j
  {
  }

  /** A score of another resume in the band is dropped with its text and hash, and every other row is left alone. */
  lemma RequeuedExactly(jobs: Jobs, user: User, current: Text, minScore: int, now: int, id: JobId)
    requires id in jobs
    ensures var j := jobs[id];
            RequeueStale(jobs, user, current, minScore, now)[id] ==
            if j.user == user && j.status == Val(Pending) && j.score.Val? && minScore <= j.score.v &&
               current != EMPTY && j.resumeHash.Val? && j.resumeHash != Val(current)
            then j.(score := Null, reasoning := Null, resumeHash := Null, scoreError := Null, updatedAt := now) else j
  {
  }

  /** A score is stored with its text and clears the error; the resume hash is replaced only by one that is not empty. */
  lemma ScoredExactly(jobs: Jobs, user: User, id: JobId, score: int, reasoning: Text, hash: Text, now: int, k: JobId)
    requires k in jobs
    ensures var j := jobs[k];
            k in ScoreJob(jobs, user, id, score, reasoning, hash, now) &&
            ScoreJob(jobs, user, id, score, reasoning, hash, now)[k] ==
            if k == id && j.user == user
            then j.(score := Val(score), reasoning := Val(reasoning), scoreError := Null, updatedAt := now,
                    resumeHash := if hash == EMPTY then j.resumeHash else Val(hash))
            else j
  {
  }
}
