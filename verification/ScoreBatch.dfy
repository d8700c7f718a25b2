/** The score-batch ledger of scorebatch.go and its hold on the sync scoring pool (scoring.go). */
module ScoreBatch {
  import opened Sql
  import opened Tables
  import Scoring

  const OPEN_BATCH_EXCLUSION_MAX: int := 72 * 3600

  // ---------------------------------------------------------------- creating and closing a batch

  function MembersOf(members: set<Member>, key: BatchKey): set<JobId> {
    set m | m in members && m.batch == key :: m.job
  }

  predicate Distinct(ids: seq<JobId>) {
    forall i, j :: 0 <= i < j < |ids| ==> ids[i] != ids[j]
  }

  /** The arguments are usable and no primary key of the two tables is hit twice. */
  predicate CanCreate(db: Db, key: BatchKey, ids: seq<JobId>) {
    key.name != EMPTY && ids != [] && key !in db.batches && Distinct(ids) &&
    forall id :: id in ids ==> Member(key, id) !in db.members
  }

  function NewMembers(key: BatchKey, ids: seq<JobId>): set<Member> {
    set i | 0 <= i < |ids| :: Member(key, ids[i])
  }

  function CreateBatch(db: Db, key: BatchKey, model: Model, hash: Text, ids: seq<JobId>): Db {
    if CanCreate(db, key, ids) then
      db.(batches := db.batches[key := Batch(Submitted, model, hash, |ids|, Null, db.now)],
          members := db.members + NewMembers(key, ids))
    else db
  }

  /** A batch is created exactly for a named, new batch of at least one job, each once; then it is submitted now with a member for each. */
  lemma CreatedExactly(db: Db, key: BatchKey, model: Model, hash: Text, ids: seq<JobId>)
    requires forall m :: m in db.members ==> m.batch in db.batches
    ensures var after := CreateBatch(db, key, model, hash, ids);
            if key.name != EMPTY && |ids| > 0 && key !in db.batches && forall i, j :: 0 <= i < j < |ids| ==> ids[i] != ids[j]
            then after == db.(batches := db.batches[key := Batch(Submitted, model, hash, |ids|, Null, db.now)], members := after.members) &&
                 forall m :: m in after.members <==> m in db.members || (m.batch == key && m.job in ids)
            else after == db
  {
  }

  predicate IsOpen(db: Db, key: BatchKey) { key in db.batches && db.batches[key].state == Submitted }

  /** The shared start of CloseScoreBatch and ApplyBatchScoreResults: leave `submitted`, drop the members. */
  function EndBatch(db: Db, key: BatchKey, state: BatchState, error: Opt<Text>): Db
    requires key in db.batches
  {
    db.(batches := db.batches[key := db.batches[key].(state := state, error := error)],
        members := set m | m in db.members && m.batch != key)
  }

  function CloseBatch(db: Db, key: BatchKey, state: BatchState, errMsg: Text): Db {
    if IsOpen(db, key) then EndBatch(db, key, state, Nullable(errMsg)) else db
  }

  /** A close ends a submitted batch with its state and message and drops its members; any other close does nothing. */
  lemma ClosedExactly(db: Db, key: BatchKey, state: BatchState, errMsg: Text)
    ensures var after := CloseBatch(db, key, state, errMsg);
            if key in db.batches && db.batches[key].state == Submitted
            then after == db.(batches := db.batches[key := db.batches[key].(state := state, error := if errMsg == EMPTY then Null else Val(errMsg))],
                              members := after.members) &&
                 forall m :: m in after.members <==> m in db.members && m.batch != key
            else after == db
  {
  }

  // ---------------------------------------------------------------- landing the results

  /** One parsed batch item; a non-empty `errMsg` stamps a failure instead of a score. */
  datatype Write = Write(job: JobId, score: int, reasoning: Text, errMsg: Text)

  predicate Landable(jobs: Jobs, user: User, id: JobId) {
    Owns(jobs, user, id) && Is(jobs[id].status, Pending) && jobs[id].score.Null?
  }

  function Stamped(j: Job, message: Text, now: int): Job {
    j.(scoreError := Val(message), lastScoreAttemptAt := Val(now), updatedAt := now)
  }

  /** The row after a score lands, low scores archived. */
  function Landed(j: Job, w: Write, hash: Text, threshold: int, now: int): Job {
    var s := j.(score := Val(w.score), reasoning := Val(w.reasoning), resumeHash := Nullable(hash), scoreError := Null, updatedAt := now);
    if w.score <= threshold then AutoArchive(s, LowScore, now) else s
  }

  function LandOne(jobs: Jobs, user: User, w: Write, hash: Text, threshold: int, now: int): Jobs {
    if !Landable(jobs, user, w.job) then jobs
    else jobs[w.job := if w.errMsg != EMPTY then Stamped(jobs[w.job], w.errMsg, now)
                       else Landed(jobs[w.job], w, hash, threshold, now)]
  }

  function LandAll(jobs: Jobs, user: User, ws: seq<Write>, hash: Text, threshold: int, now: int): Jobs {
    if ws == [] then jobs
    else LandOne(LandAll(jobs, user, ws[..|ws| - 1], hash, threshold, now), user, ws[|ws| - 1], hash, threshold, now)
  }

  /** The rows that went from no score to a score. */
  function NewlyScored(before: Jobs, after: Jobs): set<JobId> {
    set id | id in before && id in after && before[id].score.Null? && after[id].score.Val?
  }

  function AddUsage(usage: map<UsageKey, Usage>, key: UsageKey, delta: Usage): map<UsageKey, Usage> {
    usage[key := if key in usage then usage[key].Plus(delta) else delta]
  }

  /** The tenant row, then the host row: the same row twice when the tenant is the host key itself. */
  function AddBatchUsage(usage: map<UsageKey, Usage>, user: User, date: int, model: Model, delta: Usage): map<UsageKey, Usage> {
    if delta.calls > 0
    then AddUsage(AddUsage(usage, UsageKey(user, date, model), delta), UsageKey(HOST_KEY_USER, date, model), delta)
    else usage
  }

  /** The counters of a usage row, as numbers. */
  datatype Field = Calls | Prompt | CachedPrompt | Candidates | Tokens

  function FieldOf(u: Usage, f: Field): int {
    match f
    case Calls => u.calls case Prompt => u.prompt case CachedPrompt => u.cachedPrompt case Candidates => u.candidates case Tokens => u.total
  }

  /** A row that is not there counts as zeros. */
  function Balance(usage: map<UsageKey, Usage>, key: UsageKey, f: Field): int { if key in usage then FieldOf(usage[key], f) else 0 }

  lemma AddUsageBalance(usage: map<UsageKey, Usage>, row: UsageKey, delta: Usage, key: UsageKey, f: Field)
    ensures Balance(AddUsage(usage, row, delta), key, f) == Balance(usage, key, f) + if key == row then FieldOf(delta, f) else 0
  {
  }

  lemma BatchUsageBalance(usage: map<UsageKey, Usage>, user: User, date: int, model: Model, delta: Usage, key: UsageKey, f: Field)
    ensures Balance(AddBatchUsage(usage, user, date, model, delta), key, f) == Balance(usage, key, f) +
              if delta.calls <= 0 then 0
              else (if key == UsageKey(user, date, model) then FieldOf(delta, f) else 0) +
                   (if key == UsageKey(HOST_KEY_USER, date, model) then FieldOf(delta, f) else 0)
  {
    hide AddUsage, Balance;
    AddUsageBalance(usage, UsageKey(user, date, model), delta, key, f);
    AddUsageBalance(AddUsage(usage, UsageKey(user, date, model), delta), UsageKey(HOST_KEY_USER, date, model), delta, key, f);
  }

  function ApplyBatch(db: Db, key: BatchKey, ws: seq<Write>, hash: Text, threshold: int, model: Model, delta: Usage, date: int): Db {
    if IsOpen(db, key) then
      EndBatch(db, key, Succeeded, Null)
        .(jobs := LandAll(db.jobs, key.user, ws, hash, threshold, db.now),
          usage := AddBatchUsage(db.usage, key.user, date, model, delta))
    else db
  }

  // ---------------------------------------------------------------- what landing does to each row

  /** The first write that carries a score for `id`. */
  function ScoreFor(ws: seq<Write>, id: JobId): (r: Opt<Write>)
    ensures r.Val? ==> r.v.job == id && r.v.errMsg == EMPTY
  {
    if ws == [] then Null
    else
      var earlier := ScoreFor(ws[..|ws| - 1], id);
      var last := ws[|ws| - 1];
      if earlier.Val? then earlier
      else if last.job == id && last.errMsg == EMPTY then Val(last)
      else Null
  }

  lemma {:induction false} ScoreForIsFirst(ws: seq<Write>, id: JobId, i: nat)
    requires i < |ws| && ws[i].job == id && ws[i].errMsg == EMPTY
    requires forall k :: 0 <= k < i ==> ws[k].job != id || ws[k].errMsg != EMPTY
    ensures ScoreFor(ws, id) == Val(ws[i])
  {
    var init := ws[..|ws| - 1];
    if i < |init| {
      ScoreForIsFirst(init, id, i);
    } else {
      NoScoreFor(init, id);
    }
  }

  lemma {:induction false} NoScoreFor(ws: seq<Write>, id: JobId)
    ensures ScoreFor(ws, id).Null? <==> forall k :: 0 <= k < |ws| ==> ws[k].job != id || ws[k].errMsg != EMPTY
  {
    if ws != [] {
      var init := ws[..|ws| - 1];
      NoScoreFor(init, id);
      assert forall k :: 0 <= k < |init| ==> ws[k] == init[k];
    }
  }

  /** Only the failure stamps differ. */
  predicate SameButStamps(before: Job, after: Job) {
    after == before.(scoreError := after.scoreError, lastScoreAttemptAt := after.lastScoreAttemptAt, updatedAt := after.updatedAt)
  }

  /**
   * Landing a batch never clobbers. A row that is not pending-and-unscored keeps every column;
   * a pending unscored row takes the first score written for it, with the batch's hash, archived exactly at or
   * below the threshold; without such a write only its failure stamps move.
   */
  lemma {:induction false} LandingRow(jobs: Jobs, user: User, ws: seq<Write>, hash: Text, threshold: int, now: int, id: JobId)
    requires id in jobs
    ensures LandAll(jobs, user, ws, hash, threshold, now).Keys == jobs.Keys
    ensures var after := LandAll(jobs, user, ws, hash, threshold, now)[id];
            if !Landable(jobs, user, id) then after == jobs[id]
            else match ScoreFor(ws, id)
                 case Null => SameButStamps(jobs[id], after)
                 case Val(w) => after == Landed(jobs[id].(lastScoreAttemptAt := after.lastScoreAttemptAt), w, hash, threshold, now)
  {
    if ws != [] {
      LandingRow(jobs, user, ws[..|ws| - 1], hash, threshold, now, id);
    }
  }

  /** `i` is the first write with a score for the row. */
  predicate FirstScore(ws: seq<Write>, id: JobId, i: int) {
    0 <= i < |ws| && ws[i].job == id && ws[i].errMsg == EMPTY && forall k :: 0 <= k < i ==> ws[k].job != id || ws[k].errMsg != EMPTY
  }

  /** `i` is the last write for the row. */
  predicate LastWrite(ws: seq<Write>, id: JobId, i: int) {
    0 <= i < |ws| && ws[i].job == id && forall k :: i < k < |ws| ==> ws[k].job != id
  }

  /**
   * The row `after` is what landing the writes must make of the row `before`. Only a pending row of the tenant without a
   * score moves. The first score written for it lands with its text and the batch's hash, and archives the row as a low
   * score exactly at or below the threshold. With failures only, the last message and the time are stamped.
   */
  ghost predicate LandedRight(before: Job, after: Job, user: User, ws: seq<Write>, hash: Text, threshold: int, now: int, id: JobId) {
    if before.user != user || before.status != Val(Pending) || before.score.Val? then after == before
    else
      (forall i :: FirstScore(ws, id, i) ==>
         after.score == Val(ws[i].score) && after.reasoning == Val(ws[i].reasoning) && after.scoreError.Null? &&
         after.resumeHash == (if hash == EMPTY then Null else Val(hash)) &&
         (ws[i].score <= threshold ==> after.status == Val(Archived) && after.archiveReason == Val(LowScore)) &&
         (ws[i].score > threshold ==> after.status == Val(Pending) && after.archiveReason == before.archiveReason) &&
         after.lastScoreAttemptAt == (if exists k :: 0 <= k < i && ws[k].job == id then Val(now) else before.lastScoreAttemptAt) &&
         after == before.(score := after.score, reasoning := after.reasoning, resumeHash := after.resumeHash, scoreError := Null,
                          status := after.status, archiveReason := after.archiveReason,
                          lastScoreAttemptAt := after.lastScoreAttemptAt, updatedAt := now)) &&
      ((forall k :: 0 <= k < |ws| ==> ws[k].job != id || ws[k].errMsg != EMPTY) ==>
         (forall i :: LastWrite(ws, id, i) ==>
            after == before.(scoreError := Val(ws[i].errMsg), lastScoreAttemptAt := Val(now), updatedAt := now)) &&
         ((forall k :: 0 <= k < |ws| ==> ws[k].job != id) ==> after == before))
  }

  lemma {:induction false} SomeLastWrite(ws: seq<Write>, id: JobId, k: nat) returns (i: nat)
    requires k < |ws| && ws[k].job == id
    ensures LastWrite(ws, id, i)
  {
    i := |ws| - 1;
    if ws[i].job != id { i := SomeLastWrite(ws[..i], id, k); }
  }

  /** A score that landed stays: later writes find no row to land on. */
  lemma ScoredRowKept(before: Job, after: Job, user: User, ws: seq<Write>, hash: Text, threshold: int, now: int, id: JobId, i: int)
    requires ws != [] && FirstScore(ws[..|ws| - 1], id, i)
    requires LandedRight(before, after, user, ws[..|ws| - 1], hash, threshold, now, id)
    ensures LandedRight(before, after, user, ws, hash, threshold, now, id)
  {
    var init := ws[..|ws| - 1];
    assert FirstScore(ws, id, i);
    forall j | FirstScore(ws, id, j)
      ensures j == i
    { assert j < i ==> FirstScore(init, id, j); }
    assert (exists k :: 0 <= k < i && ws[k].job == id) <==> (exists k :: 0 <= k < i && init[k].job == id) by {
      if k :| 0 <= k < i && ws[k].job == id { assert init[k].job == id; }
      if k :| 0 <= k < i && init[k].job == id { assert ws[k].job == id; }
    }
  }

  predicate NoScores(ws: seq<Write>, id: JobId) { forall k :: 0 <= k < |ws| ==> ws[k].job != id || ws[k].errMsg != EMPTY }

  predicate Open(j: Job, user: User) { j.user == user && j.status == Val(Pending) && j.score.Null? }

  lemma {:induction false} SomeFirstScore(ws: seq<Write>, id: JobId, k: nat) returns (i: nat)
    requires k < |ws| && ws[k].job == id && ws[k].errMsg == EMPTY
    ensures FirstScore(ws, id, i)
  {
    i := k;
    if j: nat :| j < k && ws[j].job == id && ws[j].errMsg == EMPTY { i := SomeFirstScore(ws, id, j); }
  }

  lemma OtherRowKept(before: Job, mid: Job, user: User, init: seq<Write>, w: Write, hash: Text, threshold: int, now: int, id: JobId)
    requires Open(before, user) && NoScores(init, id) && w.job != id && LandedRight(before, mid, user, init, hash, threshold, now, id)
    ensures LandedRight(before, mid, user, init + [w], hash, threshold, now, id)
  {
    var ws := init + [w];
    assert forall k :: 0 <= k < |init| ==> ws[k] == init[k];
    forall i ensures !FirstScore(ws, id, i) { }
    forall i | LastWrite(ws, id, i)
      ensures LastWrite(init, id, i)
    {
      forall k | i < k < |init| ensures init[k].job != id { assert ws[k] == init[k]; }
    }
  }

  lemma FailureStamped(before: Job, mid: Job, user: User, init: seq<Write>, w: Write, hash: Text, threshold: int, now: int, id: JobId)
    requires Open(before, user) && NoScores(init, id) && w.job == id && w.errMsg != EMPTY
    requires LandedRight(before, mid, user, init, hash, threshold, now, id)
    ensures LandedRight(before, Stamped(mid, w.errMsg, now), user, init + [w], hash, threshold, now, id)
  {
    var ws := init + [w];
    assert LastWrite(ws, id, |init|);
    forall i ensures !FirstScore(ws, id, i) { }
    forall i | LastWrite(ws, id, i) ensures i == |init| { }
    if k :| 0 <= k < |init| && init[k].job == id { var i := SomeLastWrite(init, id, k); }
  }

  lemma ScoreLands(before: Job, mid: Job, user: User, init: seq<Write>, w: Write, hash: Text, threshold: int, now: int, id: JobId)
    requires Open(before, user) && NoScores(init, id) && w.job == id && w.errMsg == EMPTY
    requires LandedRight(before, mid, user, init, hash, threshold, now, id)
    ensures LandedRight(before, Landed(mid, w, hash, threshold, now), user, init + [w], hash, threshold, now, id)
  {
    var ws := init + [w];
    var n := |init|;
    forall i | FirstScore(ws, id, i) ensures i == n { }
    assert ws[n] == w && !NoScores(ws, id);
    if k :| 0 <= k < n && ws[k].job == id {
      assert init[k].job == id;
      var i := SomeLastWrite(init, id, k);
      assert mid.lastScoreAttemptAt == Val(now);
    } else {
      assert forall k :: 0 <= k < n ==> init[k] == ws[k];
      assert mid == before;
    }
  }

  lemma StillOpen(before: Job, mid: Job, user: User, ws: seq<Write>, hash: Text, threshold: int, now: int, id: JobId)
    requires Open(before, user) && NoScores(ws, id) && LandedRight(before, mid, user, ws, hash, threshold, now, id)
    ensures Open(mid, user)
  {
    if k :| 0 <= k < |ws| && ws[k].job == id { var i := SomeLastWrite(ws, id, k); }
  }

  /** Landing a list of writes makes of every row what it must. */
  lemma {:induction false} LandingIsRight(jobs: Jobs, user: User, ws: seq<Write>, hash: Text, threshold: int, now: int, id: JobId)
    requires id in jobs
    ensures id in LandAll(jobs, user, ws, hash, threshold, now)
    ensures LandedRight(jobs[id], LandAll(jobs, user, ws, hash, threshold, now)[id], user, ws, hash, threshold, now, id)
  {
    if ws != [] {
      var n := |ws| - 1;
      var init, w := ws[..n], ws[n];
      assert ws == init + [w];
      var mid := LandAll(jobs, user, init, hash, threshold, now);
      LandingIsRight(jobs, user, init, hash, threshold, now, id);
      if Open(jobs[id], user) {
        if k :| 0 <= k < n && init[k].job == id && init[k].errMsg == EMPTY {
          var i := SomeFirstScore(init, id, k);
          ScoredRowKept(jobs[id], mid[id], user, ws, hash, threshold, now, id, i);
        } else {
          hide LandedRight;
          StillOpen(jobs[id], mid[id], user, init, hash, threshold, now, id);
          if w.job != id {
            OtherRowKept(jobs[id], mid[id], user, init, w, hash, threshold, now, id);
          } else if w.errMsg != EMPTY {
            FailureStamped(jobs[id], mid[id], user, init, w, hash, threshold, now, id);
          } else {
            ScoreLands(jobs[id], mid[id], user, init, w, hash, threshold, now, id);
          }
        }
      }
    }
  }

  /** `applied++` after each guarded UPDATE that hit a row. */
  function LandCount(jobs: Jobs, user: User, ws: seq<Write>, hash: Text, threshold: int, now: int): nat {
    if ws == [] then 0
    else
      var init := ws[..|ws| - 1];
      LandCount(jobs, user, init, hash, threshold, now) +
      if ws[|ws| - 1].errMsg == EMPTY && Landable(LandAll(jobs, user, init, hash, threshold, now), user, ws[|ws| - 1].job) then 1 else 0
  }

  /** `applied` is the number of rows that went from no score to a score. */
  lemma {:induction false} AppliedCountsScoredRows(jobs: Jobs, user: User, ws: seq<Write>, hash: Text, threshold: int, now: int)
    ensures LandCount(jobs, user, ws, hash, threshold, now)
            == |NewlyScored(jobs, LandAll(jobs, user, ws, hash, threshold, now))|
  {
    var after := LandAll(jobs, user, ws, hash, threshold, now);
    if ws == [] {
      assert NewlyScored(jobs, after) == {};
    } else {
      var init := ws[..|ws| - 1];
      var w := ws[|ws| - 1];
      var mid := LandAll(jobs, user, init, hash, threshold, now);
      AppliedCountsScoredRows(jobs, user, init, hash, threshold, now);
      forall id | id in jobs
        ensures id in mid && id in after && (jobs[id].score.Val? ==> mid[id].score.Val?)
      {
        LandingRow(jobs, user, init, hash, threshold, now, id);
        LandingRow(jobs, user, ws, hash, threshold, now, id);
      }
      if w.errMsg == EMPTY && Landable(mid, user, w.job) {
        LandKeys(jobs, user, init, hash, threshold, now);
        assert w.job !in NewlyScored(jobs, mid);
        assert NewlyScored(jobs, after) == NewlyScored(jobs, mid) + {w.job};
      } else {
        assert NewlyScored(jobs, after) == NewlyScored(jobs, mid);
      }
    }
  }

  lemma {:induction false} LandKeys(jobs: Jobs, user: User, ws: seq<Write>, hash: Text, threshold: int, now: int)
    ensures LandAll(jobs, user, ws, hash, threshold, now).Keys == jobs.Keys
  {
    if ws != [] { LandKeys(jobs, user, ws[..|ws| - 1], hash, threshold, now); }
  }

  /** A landed score carries the batch's hash, so under another resume it is counted as stale while it is pending. */
  lemma LandedScoreIsStale(jobs: Jobs, user: User, ws: seq<Write>, hash: Text, threshold: int, now: int, id: JobId, current: Text)
    requires hash != EMPTY && id in NewlyScored(jobs, LandAll(jobs, user, ws, hash, threshold, now))
    ensures var after := LandAll(jobs, user, ws, hash, threshold, now);
            Landable(jobs, user, id) && after[id].resumeHash == Val(hash) &&
            (Is(after[id].status, Pending) && current != EMPTY && current != hash <==> id in Scoring.StaleScores(after, user, current))
  {
    LandingRow(jobs, user, ws, hash, threshold, now, id);
  }

  // ---------------------------------------------------------------- a requeue does not make the guard miss

  /** A requeue nulls the score of a pending row, so the row becomes landable: exactly the rows it hits do. */
  lemma RequeueOpensGuard(jobs: Jobs, user: User, current: Text, minScore: int, now: int, id: JobId)
    requires id in jobs && !Landable(jobs, user, id)
    ensures Landable(Scoring.RequeueStale(jobs, user, current, minScore, now), user, id)
            <==> Scoring.RequeueHit(jobs[id], user, current, minScore)
  {
  }

  /** So a batch submitted before the requeue lands its old-resume score on every requeued row that it has a score for. */
  lemma BatchLandsAfterRequeue(jobs: Jobs, user: User, current: Text, minScore: int, ws: seq<Write>, hash: Text, threshold: int, now: int, id: JobId)
    requires id in jobs && Scoring.RequeueHit(jobs[id], user, current, minScore)
    requires ScoreFor(ws, id).Val?
    ensures var requeued := Scoring.RequeueStale(jobs, user, current, minScore, now);
            id in NewlyScored(requeued, LandAll(requeued, user, ws, hash, threshold, now))
    ensures id !in NewlyScored(jobs, LandAll(jobs, user, ws, hash, threshold, now))
  {
    var requeued := Scoring.RequeueStale(jobs, user, current, minScore, now);
    LandingRow(requeued, user, ws, hash, threshold, now, id);
    LandingRow(jobs, user, ws, hash, threshold, now, id);
  }

  // ---------------------------------------------------------------- members belong to open batches only

  /** Members exist for open batches only, as many as the ledger row says; no batch is from the future. */
  predicate LedgerInv(db: Db) {
    (forall m :: m in db.members ==> IsOpen(db, m.batch)) &&
    (forall key :: key in db.batches && db.batches[key].state == Submitted ==>
       db.batches[key].jobCount > 0 && |MembersOf(db.members, key)| == db.batches[key].jobCount) &&
    (forall key :: key in db.batches ==> db.batches[key].createdAt <= db.now)
  }

  /** A batch has members exactly while it is open, and then as many as were submitted. */
  lemma MembersIffOpen(db: Db, key: BatchKey)
    requires LedgerInv(db) && key in db.batches
    ensures MembersOf(db.members, key) != {} <==> db.batches[key].state == Submitted
    ensures |MembersOf(db.members, key)| == if db.batches[key].state == Submitted then db.batches[key].jobCount else 0
  {
    if db.batches[key].state != Submitted {
      assert MembersOf(db.members, key) == {};
    }
  }

  lemma {:induction false} DistinctCount(key: BatchKey, ids: seq<JobId>)
    requires Distinct(ids)
    ensures |MembersOf(NewMembers(key, ids), key)| == |ids|
  {
    if ids == [] {
      assert MembersOf(NewMembers(key, ids), key) == {};
    } else {
      var n := |ids| - 1;
      DistinctCount(key, ids[..n]);
      assert NewMembers(key, ids) == NewMembers(key, ids[..n]) + {Member(key, ids[n])};
      assert MembersOf(NewMembers(key, ids), key) == MembersOf(NewMembers(key, ids[..n]), key) + {ids[n]};
      assert ids[n] !in MembersOf(NewMembers(key, ids[..n]), key);
    }
  }

  lemma CreateKeepsLedger(db: Db, key: BatchKey, model: Model, hash: Text, ids: seq<JobId>)
    requires LedgerInv(db)
    ensures LedgerInv(CreateBatch(db, key, model, hash, ids))
  {
    if CanCreate(db, key, ids) {
      var after := CreateBatch(db, key, model, hash, ids);
      DistinctCount(key, ids);
      forall m | m in db.members ensures m.batch != key { }
      assert MembersOf(after.members, key) == MembersOf(NewMembers(key, ids), key);
      forall k | k in db.batches
        ensures MembersOf(after.members, k) == MembersOf(db.members, k)
      { }
    }
  }

  lemma EndKeepsLedger(db: Db, key: BatchKey, state: BatchState, error: Opt<Text>)
    requires LedgerInv(db) && IsOpen(db, key) && state != Submitted
    ensures LedgerInv(EndBatch(db, key, state, error))
    ensures MembersOf(EndBatch(db, key, state, error).members, key) == {}
  {
    var after := EndBatch(db, key, state, error);
    forall k | k in db.batches && k != key
      ensures MembersOf(after.members, k) == MembersOf(db.members, k)
    { }
  }

  // ---------------------------------------------------------------- the sync pool

  predicate Scorable(j: Job) {
    Is(j.status, Pending) ||
    (j.status.Val? && j.status.v in PIPELINE && Coalesce(j.stage, Blank) !in {Closed, Rejected, Ghosted})
  }

  /** The batches that hold rows back, which are the ones CountOpenScoreBatches counts. */
  predicate Holding(db: Db, key: BatchKey) {
    IsOpen(db, key) && db.batches[key].createdAt > db.now - OPEN_BATCH_EXCLUSION_MAX
  }

  function HoldingBatches(db: Db): set<BatchKey> { set key | key in db.batches && Holding(db, key) }

  function CountOpenScoreBatches(db: Db): nat { |HoldingBatches(db)| }

  predicate HiddenByBatch(db: Db, user: User, id: JobId) {
    exists m :: m in db.members && m.job == id && m.batch.user == user && Holding(db, m.batch)
  }

  predicate InPool(db: Db, user: User, id: JobId) {
    Owns(db.jobs, user, id) && db.jobs[id].score.Null? && Scorable(db.jobs[id]) &&
    Coalesce(db.jobs[id].description, EMPTY) != EMPTY && !HiddenByBatch(db, user, id)
  }

  /** The rows of GetUnscoredJobs without a limit, order aside. */
  function UnscoredJobs(db: Db, user: User): set<JobId> {
    set id | id in db.jobs && InPool(db, user, id)
  }

  /** Submitted less than 72 hours ago: the batch holds its members back. */
  predicate Holds(db: Db, m: Member, user: User) {
    m in db.members && m.batch.user == user && m.batch in db.batches && db.batches[m.batch].state == Submitted &&
    db.now - db.batches[m.batch].createdAt < 72 * 3600
  }

  /** Worth scoring: pending, or applied for and not ended; described, and not scored yet. */
  predicate WantsScore(j: Job) {
    j.score.Null? && j.description.Val? && j.description.v != EMPTY && j.status.Val? &&
    (j.status.v == Pending ||
     ((j.status.v == Applied || j.status.v == Responded) &&
      (j.stage.Null? || (j.stage.v != Closed && j.stage.v != Rejected && j.stage.v != Ghosted))))
  }

  /** The sync pool, by the columns of its rows. */
  lemma PoolExactly(db: Db, user: User, id: JobId)
    ensures id in UnscoredJobs(db, user) <==>
            id in db.jobs && db.jobs[id].user == user && WantsScore(db.jobs[id]) &&
            forall m :: m in db.members && m.job == id ==> !Holds(db, m, user)
  {
    if m :| m in db.members && m.job == id && Holds(db, m, user) { assert Holding(db, m.batch); }
    if m :| m in db.members && m.job == id && m.batch.user == user && Holding(db, m.batch) { assert Holds(db, m, user); }
  }

  /** A row of one submitted batch is back in the pool exactly from 72 hours after the submission on. */
  lemma HeldFor72Hours(db: Db, user: User, id: JobId, key: BatchKey, later: int)
    requires id in db.jobs && db.jobs[id].user == user && WantsScore(db.jobs[id])
    requires key.user == user && Member(key, id) in db.members && key in db.batches && db.batches[key].state == Submitted
    requires forall m :: m in db.members && m.job == id && m.batch.user == user ==> m.batch == key
    ensures id in UnscoredJobs(db.(now := later), user) <==> later >= db.batches[key].createdAt + 259200
  {
    PoolExactly(db.(now := later), user, id);
    if later < db.batches[key].createdAt + 259200 { assert Holds(db.(now := later), Member(key, id), user); }
  }

  // ---------------------------------------------------------------- what scoring does to the pool and to the stale scores

  /** An attempt or a failure neither leaves the pool nor makes a score stale: the row is simply tried again. */
  lemma AttemptsKeepPool(db: Db, user: User, id: JobId, message: Text, u: User, current: Text)
    ensures var tried := db.(jobs := Scoring.MarkAttempt(db.jobs, user, id, db.now));
            var failed := db.(jobs := Scoring.MarkFailure(tried.jobs, user, id, message, db.now));
            UnscoredJobs(tried, u) == UnscoredJobs(db, u) && UnscoredJobs(failed, u) == UnscoredJobs(db, u) &&
            Scoring.StaleScores(failed.jobs, u, current) == Scoring.StaleScores(db.jobs, u, current)
    ensures var failed := Scoring.MarkFailure(Scoring.MarkAttempt(db.jobs, user, id, db.now), user, id, message, db.now);
            Owns(db.jobs, user, id) ==>
              failed[id].scoreError == Val(message) && failed[id].lastScoreAttemptAt == Val(db.now) &&
              failed[id].scoreAttempts == Val(Coalesce(db.jobs[id].scoreAttempts, 0) + 1) && failed[id].score == db.jobs[id].score
  {
    var tried := db.(jobs := Scoring.MarkAttempt(db.jobs, user, id, db.now));
    var failed := db.(jobs := Scoring.MarkFailure(tried.jobs, user, id, message, db.now));
    forall k
      ensures InPool(tried, u, k) <==> InPool(db, u, k)
      ensures InPool(failed, u, k) <==> InPool(db, u, k)
    { }
  }

  /** A score takes exactly that row out of the pool. */
  lemma ScoreLeavesPool(db: Db, user: User, id: JobId, score: int, reasoning: Text, hash: Text)
    ensures var after := db.(jobs := Scoring.ScoreJob(db.jobs, user, id, score, reasoning, hash, db.now));
            UnscoredJobs(after, user) == UnscoredJobs(db, user) - {id}
  {
    var after := db.(jobs := Scoring.ScoreJob(db.jobs, user, id, score, reasoning, hash, db.now));
    forall k
      ensures InPool(after, user, k) <==> InPool(db, user, k) && k != id
    { }
  }

  /**
   * A row that was just scored counts as stale exactly while it is pending and its hash is another resume's. Scored
   * without a hash it keeps the old one, so a fresh score can count as stale at once.
   */
  lemma ScoredStaleness(jobs: Jobs, user: User, id: JobId, score: int, reasoning: Text, hash: Text, now: int, current: Text)
    requires Owns(jobs, user, id) && current != EMPTY
    ensures var after := Scoring.ScoreJob(jobs, user, id, score, reasoning, hash, now);
            id in Scoring.StaleScores(after, user, current) <==>
              Is(jobs[id].status, Pending) &&
              if hash != EMPTY then hash != current else jobs[id].resumeHash.Val? && jobs[id].resumeHash.v != current
    ensures var after := Scoring.ScoreJob(jobs, user, id, score, reasoning, hash, now);
            Scoring.StaleScores(after, user, current) - {id} == Scoring.StaleScores(jobs, user, current) - {id}
  {
  }

  /** A requeue puts into the pool exactly the rows that it un-scores, those apart that have no description or are held by an open batch. */
  lemma RequeueRefillsPool(db: Db, user: User, current: Text, minScore: int)
    ensures var after := db.(jobs := Scoring.RequeueStale(db.jobs, user, current, minScore, db.now));
            UnscoredJobs(after, user) ==
              UnscoredJobs(db, user) +
              set id | id in db.jobs && Scoring.RequeueHit(db.jobs[id], user, current, minScore) &&
                       Coalesce(db.jobs[id].description, EMPTY) != EMPTY && !HiddenByBatch(db, user, id)
    ensures var after := Scoring.RequeueStale(db.jobs, user, current, minScore, db.now);
            Scoring.StaleScores(after, user, current) ==
              set id | id in Scoring.StaleScores(db.jobs, user, current) && db.jobs[id].score.v < minScore
  {
    var after := db.(jobs := Scoring.RequeueStale(db.jobs, user, current, minScore, db.now));
    forall k
      ensures InPool(after, user, k) <==>
              InPool(db, user, k) || (k in db.jobs && Scoring.RequeueHit(db.jobs[k], user, current, minScore) &&
                                      Coalesce(db.jobs[k].description, EMPTY) != EMPTY && !HiddenByBatch(db, user, k))
    { }
  }

  // ---------------------------------------------------------------- the daily submit gate

  function CountedJobs(b: Batch, since: int): nat { if b.createdAt >= since then b.jobCount else 0 }

  ghost function SumOver(batches: map<BatchKey, Batch>, keys: set<BatchKey>, since: int): nat
    requires keys <= batches.Keys
  {
    if keys == {} then 0
    else
      var key :| key in keys;
      CountedJobs(batches[key], since) + SumOver(batches, keys - {key}, since)
  }

  /** SumBatchJobsSubmittedSince: batches in any state count. */
  ghost function SumBatchJobs(batches: map<BatchKey, Batch>, since: int): nat {
    SumOver(batches, batches.Keys, since)
  }

  lemma {:induction false} SumOverRemove(batches: map<BatchKey, Batch>, keys: set<BatchKey>, since: int, key: BatchKey)
    requires key in keys && keys <= batches.Keys
    ensures SumOver(batches, keys, since) == CountedJobs(batches[key], since) + SumOver(batches, keys - {key}, since)
    decreases |keys|
  {
    var k :| k in keys && SumOver(batches, keys, since) == CountedJobs(batches[k], since) + SumOver(batches, keys - {k}, since);
    if k != key {
      SumOverRemove(batches, keys - {k}, since, key);
      SumOverRemove(batches, keys - {key}, since, k);
      assert keys - {k} - {key} == keys - {key} - {k};
    }
  }

  lemma {:induction false} SumOverSame(a: map<BatchKey, Batch>, b: map<BatchKey, Batch>, keys: set<BatchKey>, since: int)
    requires keys <= a.Keys && keys <= b.Keys
    requires forall k :: k in keys ==> a[k].jobCount == b[k].jobCount && a[k].createdAt == b[k].createdAt
    ensures SumOver(a, keys, since) == SumOver(b, keys, since)
    decreases |keys|
  {
    if key :| key in keys {
      SumOverRemove(a, keys, since, key);
      SumOverRemove(b, keys, since, key);
      SumOverSame(a, b, keys - {key}, since);
    }
  }

  lemma CreateAddsToGate(db: Db, key: BatchKey, model: Model, hash: Text, ids: seq<JobId>, since: int)
    ensures SumBatchJobs(CreateBatch(db, key, model, hash, ids).batches, since)
            == SumBatchJobs(db.batches, since) + if CanCreate(db, key, ids) && db.now >= since then |ids| else 0
  {
    if CanCreate(db, key, ids) {
      var after := CreateBatch(db, key, model, hash, ids).batches;
      SumOverRemove(after, after.Keys, since, key);
      assert after.Keys - {key} == db.batches.Keys;
      SumOverSame(after, db.batches, db.batches.Keys, since);
    }
  }

  lemma EndKeepsGate(db: Db, key: BatchKey, state: BatchState, error: Opt<Text>, since: int)
    requires key in db.batches
    ensures SumBatchJobs(EndBatch(db, key, state, error).batches, since) == SumBatchJobs(db.batches, since)
  {
    var after := EndBatch(db, key, state, error).batches;
    assert after.Keys == db.batches.Keys;
    SumOverSame(after, db.batches, db.batches.Keys, since);
  }
}
