/** User moves (dashboard.go), and the sweeps that read rows first and move them in a later transaction. */
module Pipeline {
  import opened Sql
  import opened Tables

  // ---------------------------------------------------------------- dashboard.go

  /** The row after `SetPipelineStage(id, value)`. */
  function Staged(j: Job, value: Word, now: int): Job {
    match value
    case Blank => j.(status := Val(Pending), stage := Null, updatedAt := now)
    case Closed => j.(status := Val(Closed), stage := Val(Closed), updatedAt := now)
    case Rejected => j.(status := Val(Rejected), stage := Val(Rejected), rejectedFromStage := j.stage, rejectedAt := Val(now), updatedAt := now)
    case Ghosted => j.(status := Val(Ghosted), stage := Val(Ghosted), updatedAt := now)
    case _ => j.(status := Val(Applied), stage := Val(value), appliedAt := Val(Coalesce(j.appliedAt, now)), updatedAt := now)
  }

  /** An empty text is logged as NULL. */
  function StageEvent(user: User, id: JobId, from: Word, to: Word, now: int): Event {
    Event(user, id, StageChange, NullableWord(from), NullableWord(to), now)
  }

  /** Fails, and changes nothing, when the tenant has no such row. */
  function SetPipelineStage(db: Db, user: User, id: JobId, value: Word): Db {
    if !Owns(db.jobs, user, id) then db
    else db.(jobs := db.jobs[id := Staged(db.jobs[id], value, db.now)],
             events := db.events + [StageEvent(user, id, Coalesce(db.jobs[id].stage, Blank), value, db.now)])
  }

  datatype Move = Move(value: Word, at: int)

  /** The row after a list of moves. */
  function Moved(j: Job, moves: seq<Move>): Job {
    if moves == [] then j
    else Staged(Moved(j, moves[..|moves| - 1]), moves[|moves| - 1].value, moves[|moves| - 1].at)
  }

  predicate Advances(value: Word) { value !in {Blank, Closed, Rejected, Ghosted} }

  /** After any list of moves status and stage are the last move's, and only the columns of the application have changed. */
  lemma {:induction false} LastMoveDecides(j: Job, moves: seq<Move>)
    requires moves != []
    ensures var m := Moved(j, moves);
            var last := moves[|moves| - 1];
            m.stage == NullableWord(last.value) &&
            m.status == Val(if last.value == Blank then Pending else if Advances(last.value) then Applied else last.value) &&
            m == j.(status := m.status, stage := m.stage, appliedAt := m.appliedAt, rejectedAt := m.rejectedAt,
                    rejectedFromStage := m.rejectedFromStage, updatedAt := last.at)
  {
    if |moves| > 1 { LastMoveDecides(j, moves[..|moves| - 1]); }
  }

  /** applied_at is the time of the first move that advanced, unless it was set before. */
  lemma {:induction false} FirstAdvanceDates(j: Job, moves: seq<Move>, i: nat)
    requires i <= |moves| && (forall k :: 0 <= k < i ==> !Advances(moves[k].value)) && (i < |moves| ==> Advances(moves[i].value))
    ensures Moved(j, moves).appliedAt == if j.appliedAt.Val? || i == |moves| then j.appliedAt else Val(moves[i].at)
  {
    if moves != [] {
      var init := moves[..|moves| - 1];
      FirstAdvanceDates(j, init, if i < |moves| then i else |init|);
    }
  }

  /**
   * rejected_at and rejected_from_stage are the time of the last rejection `i` and the stage that it left: a second
   * rejection in a row overwrites the stage that was lost with `rejected`.
   */
  lemma {:induction false} LastRejectionRecorded(j: Job, moves: seq<Move>, i: nat)
    requires i < |moves| && moves[i].value == Rejected && forall k :: i < k < |moves| ==> moves[k].value != Rejected
    ensures Moved(j, moves).rejectedAt == Val(moves[i].at)
    ensures Moved(j, moves).rejectedFromStage == if i == 0 then j.stage else NullableWord(moves[i - 1].value)
  {
    var init := moves[..|moves| - 1];
    if i < |init| {
      LastRejectionRecorded(j, init, i);
    } else if init != [] {
      LastMoveDecides(j, init);
      assert init[|init| - 1] == moves[i - 1];
    }
  }

  function UserArchived(j: Job, now: int): Job { j.(status := Val(Archived), updatedAt := now) }

  /** The event is inserted whether or not the UPDATE hit a row; its foreign key fails when the job does not exist at all. */
  function ArchiveJob(db: Db, user: User, id: JobId): Db {
    if id !in db.jobs then db
    else db.(jobs := if Owns(db.jobs, user, id) then db.jobs[id := UserArchived(db.jobs[id], db.now)] else db.jobs,
             events := db.events + [Event(user, id, StatusChange, Null, Val(Archived), db.now)])
  }

  // ---------------------------------------------------------------- AutoGhostStale: select, then one transaction

  const DAY := 86400

  predicate GhostHit(j: Job, user: User, days: int, now: int) {
    j.user == user && Is(j.status, Applied) && Coalesce(j.stage, Applied) == Applied &&
    j.appliedAt.Val? && j.appliedAt.v < now - days * DAY
  }

  /** A row of the select: its id and `COALESCE(stage, '')`. */
  datatype GhostItem = GhostItem(id: JobId, stage: Word)

  function GhostItems(jobs: Jobs, user: User, days: int, now: int): set<GhostItem> {
    set id | id in jobs && GhostHit(jobs[id], user, days, now) :: GhostItem(id, Coalesce(jobs[id].stage, Blank))
  }

  function GhostedRow(j: Job, now: int): Job { j.(status := Val(Ghosted), stage := Val(Ghosted), updatedAt := now) }

  function OrApplied(w: Word): Word { if w == Blank then Applied else w }

  function GhostOne(db: Db, user: User, item: GhostItem): Db {
    db.(jobs := if Owns(db.jobs, user, item.id) then db.jobs[item.id := GhostedRow(db.jobs[item.id], db.now)] else db.jobs,
        events := db.events + [StageEvent(user, item.id, OrApplied(item.stage), Ghosted, db.now)])
  }

  function GhostAll(db: Db, user: User, items: seq<GhostItem>): Db {
    if items == [] then db else GhostOne(GhostAll(db, user, items[..|items| - 1]), user, items[|items| - 1])
  }

  /** The events of the write transaction: one stage change for each selected row, a missing stage logged as `applied`. */
  function GhostEvents(user: User, items: seq<GhostItem>, now: int): seq<Event> {
    seq(|items|, i requires 0 <= i < |items| => Event(user, items[i].id, StageChange, Val(OrApplied(items[i].stage)), Val(Ghosted), now))
  }

  lemma {:induction false} GhostAllLogs(db: Db, user: User, items: seq<GhostItem>)
    ensures GhostAll(db, user, items).events == db.events + GhostEvents(user, items, db.now)
  {
    if items != [] {
      var init := items[..|items| - 1];
      GhostAllLogs(db, user, init);
      GhostKeys(db, user, init);
      assert GhostEvents(user, items, db.now) == GhostEvents(user, init, db.now) + [GhostEvents(user, items, db.now)[|init|]];
    }
  }

  predicate Ids(items: seq<GhostItem>, id: JobId) { exists i :: 0 <= i < |items| && items[i].id == id }

  predicate AllExist(jobs: Jobs, items: seq<GhostItem>) { forall i :: 0 <= i < |items| ==> items[i].id in jobs }

  /** The write transaction trusts the earlier select: no status guard. */
  function GhostWrite(db: Db, user: User, items: seq<GhostItem>): Db {
    if AllExist(db.jobs, items) then GhostAll(db, user, items) else db
  }

  lemma {:induction false} GhostAllRow(db: Db, user: User, items: seq<GhostItem>, id: JobId)
    requires id in db.jobs
    ensures GhostAll(db, user, items).jobs.Keys == db.jobs.Keys
    ensures GhostAll(db, user, items).jobs[id] ==
            if Ids(items, id) && db.jobs[id].user == user then GhostedRow(db.jobs[id], db.now) else db.jobs[id]
  {
    if items != [] {
      var init := items[..|items| - 1];
      GhostAllRow(db, user, init, id);
      GhostKeys(db, user, init);
      assert Ids(items, id) <==> Ids(init, id) || items[|items| - 1].id == id by {
        if Ids(init, id) { var i :| 0 <= i < |init| && init[i].id == id; assert items[i].id == id; }
      }
    }
  }

  lemma {:induction false} GhostKeys(db: Db, user: User, items: seq<GhostItem>)
    ensures GhostAll(db, user, items).jobs.Keys == db.jobs.Keys
    ensures GhostAll(db, user, items).now == db.now
  {
    if items != [] { GhostKeys(db, user, items[..|items| - 1]); }
  }

  /** No other table changes. */
  lemma {:induction false} GhostAllFrame(db: Db, user: User, items: seq<GhostItem>)
    ensures GhostAll(db, user, items) == db.(jobs := GhostAll(db, user, items).jobs, events := GhostAll(db, user, items).events)
  {
    if items != [] { GhostAllFrame(db, user, items[..|items| - 1]); }
  }

  // ---------------------------------------------------------------- rejection e-mails: read, then one transaction

  /** The row can be rejected by an e-mail: applied at some time, not rejected already. */
  predicate RejectHit(j: Job, user: User) {
    j.user == user && Coalesce(j.stage, Blank) != Rejected && j.appliedAt.Val?
  }

  function RejectedRow(j: Job, from: Word, at: int, now: int): Job {
    j.(status := Val(Rejected), stage := Val(Rejected), rejectedFromStage := Val(from),
       rejectedAt := Val(Coalesce(j.rejectedAt, at)), updatedAt := now)
  }

  function RejectWrite(db: Db, user: User, id: JobId, from: Word, at: int): Db {
    if id !in db.jobs then db
    else db.(jobs := if Owns(db.jobs, user, id) then db.jobs[id := RejectedRow(db.jobs[id], from, at, db.now)] else db.jobs,
             events := db.events + [StageEvent(user, id, from, Rejected, db.now)])
  }

  // ---------------------------------------------------------------- close and reopen candidates

  /** CloseCheckJobs. VanishedBoardJobs uses the same status and stage guard. */
  predicate CloseCandidate(j: Job, user: User) {
    j.user == user && NotIn(j.status, {Archived, Applied, Responded}) &&
    (j.stage.Null? || NotIn(j.stage, {Closed, Rejected, Offer}))
  }

  /** ResurfacedClosedJobs without its evidence on the global table. */
  predicate ReopenCandidate(j: Job, user: User) {
    j.user == user && Is(j.status, Closed) && Is(j.stage, Closed)
  }

  // ---------------------------------------------------------------- what the selects find after a move

  /**
   * After a move of its user the closed check probes the row exactly when the move cleared the stage or ghosted the row,
   * the reopening looks at it exactly when the move closed it, AutoGhostStale exactly when the move was to `applied` and
   * applied_at is older than the window, and a rejection e-mail counts exactly when the row has an applied_at and the move
   * was not itself a rejection.
   */
  lemma SelectsAfterMove(j: Job, value: Word, at: int, user: User, days: int, now: int)
    requires j.user == user && value in PIPELINE_VALUES
    ensures var m := Staged(j, value, at);
            (CloseCandidate(m, user) <==> value == Blank || value == Ghosted) &&
            (ReopenCandidate(m, user) <==> value == Closed) &&
            (GhostHit(m, user, days, now) <==>
               value == Applied && (if j.appliedAt.Val? then j.appliedAt.v else at) < now - days * 24 * 3600) &&
            (RejectHit(m, user) <==>
               value != Rejected && (j.appliedAt.Val? || value in {Applied, PhoneScreen, Interview, Onsite, Offer}))
  {
  }

  /** The closed check also leaves alone what was archived or merged: by status archived, applied, responded, and by stage closed, rejected, offer. */
  lemma ProbedExactly(j: Job, user: User)
    ensures CloseCandidate(j, user) <==>
            j.user == user && j.status.Val? && j.status.v != Archived && j.status.v != Applied && j.status.v != Responded &&
            (j.stage.Null? || (j.stage.v != Closed && j.stage.v != Rejected && j.stage.v != Offer))
  {
  }

  /** A rejection e-mail moves the row and logs the stage that it was read with; the time of an earlier rejection is kept. */
  lemma RejectionLands(db: Db, user: User, id: JobId, from: Word, at: int)
    requires id in db.jobs && db.jobs[id].user == user
    ensures var after := RejectWrite(db, user, id, from, at);
            var j := db.jobs[id];
            after.jobs == db.jobs[id := j.(status := Val(Rejected), stage := Val(Rejected), rejectedFromStage := Val(from),
                                           rejectedAt := if j.rejectedAt.Val? then j.rejectedAt else Val(at), updatedAt := db.now)] &&
            (from != Blank ==> after.events == db.events + [Event(user, id, StageChange, Val(from), Val(Rejected), db.now)])
  {
  }

  /** A move of the row's user logs the stage that it leaves and the one that it enters, NULL for none; other rows and tables stay. */
  lemma MoveLogged(db: Db, user: User, id: JobId, value: Word)
    requires id in db.jobs && db.jobs[id].user == user
    ensures var after := SetPipelineStage(db, user, id, value);
            var left := if db.jobs[id].stage == Val(Blank) then Null else db.jobs[id].stage;
            id in after.jobs && after == db.(jobs := db.jobs[id := after.jobs[id]], events := after.events) &&
            after.events == db.events + [Event(user, id, StageChange, left, if value == Blank then Null else Val(value), db.now)]
  {
  }

  /** An archive by the row's user changes its status alone and logs it as a status change. */
  lemma UserArchiveLands(db: Db, user: User, id: JobId)
    requires id in db.jobs && db.jobs[id].user == user
    ensures ArchiveJob(db, user, id) ==
            db.(jobs := db.jobs[id := db.jobs[id].(status := Val(Archived), updatedAt := db.now)],
                events := db.events + [Event(user, id, StatusChange, Null, Val(Archived), db.now)])
  {
  }
}
