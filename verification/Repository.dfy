/** The repository of `internal/db`: its transactions change the shared tables statement by statement. */
module Repository {
  import opened Sql
  import opened Tables
  import P = Pipeline
  import S = Scoring
  import B = ScoreBatch
  import C = Canonicalize
  import D = Dedup

  /** The database that all tenants' repositories share. */
  class Store {
    var now: int
    var jobs: Jobs
    var events: seq<Event>
    var batches: map<BatchKey, Batch>
    var members: set<Member>
    var usage: map<UsageKey, Usage>
    var rejections: seq<Rejection>
    var aliases: map<JobId, Alias>

    constructor (now: int)
      ensures Tables() == Db(now, map[], [], map[], {}, map[], [], map[])
    {
      this.now, jobs, events, batches, members := now, map[], [], map[], {};
      usage, rejections, aliases := map[], [], map[];
    }

    function Tables(): Db
      reads this
    {
      Db(now, jobs, events, batches, members, usage, rejections, aliases)
    }

    /** `tx.Rollback()`, back to the tables as they were at `Begin`. */
    method Rollback(saved: Db)
      modifies this
      ensures Tables() == saved
    {
      now, jobs, events, batches, members := saved.now, saved.jobs, saved.events, saved.batches, saved.members;
      usage, rejections, aliases := saved.usage, saved.rejections, saved.aliases;
    }
  }

  datatype DedupResult = DedupResult(reposts: nat, pending: nat, alternates: nat) {
    function Total(): nat { reposts + pending + alternates }
  }

  /** What CanonicalizeAlternateJob reports: the empty action on an error, else the merge or the status that it recorded. */
  datatype CanonicalizeAction = NoAction | Canonicalizes | Records(status: C.ResolutionStatus)
  datatype CanonicalizeResult = CanonicalizeResult(action: CanonicalizeAction, canonicalId: JobId)

  const NOTHING_DONE := CanonicalizeResult(NoAction, EMPTY)

  /** `RowsAffected` of an UPDATE that archives rows. */
  function Affected(before: Jobs, after: Jobs): nat { |D.Archived3(before, after)| }

  lemma AffectedAdds(a: Jobs, b: Jobs, c: Jobs)
    requires a.Keys == b.Keys == c.Keys
    requires forall id :: id in a ==> Is(b[id].status, Archived) || b[id].status == a[id].status
    requires forall id :: id in a ==> c[id].status == b[id].status || (!Is(b[id].status, Archived) && Is(c[id].status, Archived))
    requires forall id :: id in a && Is(b[id].status, Archived) ==> Is(c[id].status, Archived)
    requires forall id :: id in a && Is(a[id].status, Archived) ==> b[id].status == a[id].status
    ensures Affected(a, c) == Affected(a, b) + Affected(b, c)
  {
    assert D.Archived3(a, c) == D.Archived3(a, b) + D.Archived3(b, c);
    assert D.Archived3(a, b) !! D.Archived3(b, c);
  }

  lemma PassesKeepArchived(jobs: Jobs, user: User, tie: JobId -> int, now: int)
    ensures var j1 := D.Reposts(jobs, user, now);
            var j2 := D.PendingDuplicates(j1, user, tie, now);
            var j3 := D.Alternates(j2, user, now);
            Affected(jobs, j1) + Affected(j1, j2) + Affected(j2, j3) == Affected(jobs, j3)
  {
    var j1 := D.Reposts(jobs, user, now);
    var j2 := D.PendingDuplicates(j1, user, tie, now);
    var j3 := D.Alternates(j2, user, now);
    AffectedAdds(jobs, j1, j2);
    AffectedAdds(jobs, j2, j3);
  }

  /**
   * One tenant's repository. `fails(i)` says that statement `i` of a transaction returns an error: then the
   * transaction is rolled back and its caller sees the error.
   */
  class Repository {
    const store: Store
    const userID: User

    constructor (store: Store, userID: User)
      ensures this.store == store && this.userID == userID
    {
      this.store, this.userID := store, userID;
    }

    // ---------------------------------------------------------------- scorebatch.go

    method CreateScoreBatch(name: BatchName, model: Model, hash: Text, ids: seq<JobId>, fails: nat -> bool) returns (err: bool)
      modifies store
      ensures var db := old(store.Tables());
              store.Tables() == if err then db else B.CreateBatch(db, BatchKey(userID, name), model, hash, ids)
      ensures !B.CanCreate(old(store.Tables()), BatchKey(userID, name), ids) ==> err
      ensures err ==> !B.CanCreate(old(store.Tables()), BatchKey(userID, name), ids) || exists i :: fails(i)
    {
      if name == EMPTY || ids == [] {
        return true;
      }
      var saved := store.Tables();
      var key := BatchKey(userID, name);
      if fails(0) || key in store.batches {
        return true;
      }
      store.batches := store.batches[key := Batch(Submitted, model, hash, |ids|, Null, store.now)];
      for i := 0 to |ids|
        invariant store.batches == saved.batches[key := Batch(Submitted, model, hash, |ids|, Null, saved.now)]
        invariant store.Tables() == saved.(batches := store.batches, members := store.members)
        invariant store.members == saved.members + B.NewMembers(key, ids[..i])
        invariant B.Distinct(ids[..i]) && forall k :: 0 <= k < i ==> Member(key, ids[k]) !in saved.members
      {
        assert forall m :: m in B.NewMembers(key, ids[..i]) <==> exists k :: 0 <= k < i && m == Member(key, ids[..i][k]);
        if fails(i + 1) || Member(key, ids[i]) in store.members {
          if !fails(i + 1) { RefusedMember(saved, key, ids, i); }
          store.Rollback(saved);
          return true;
        }
        store.members := store.members + {Member(key, ids[i])};
        assert ids[..i + 1] == ids[..i] + [ids[i]];
        assert B.NewMembers(key, ids[..i + 1]) == B.NewMembers(key, ids[..i]) + {Member(key, ids[i])};
      }
      assert ids[..|ids|] == ids;
      return false;
    }

    static lemma RefusedMember(saved: Db, key: BatchKey, ids: seq<JobId>, i: nat)
      requires i < |ids| && Member(key, ids[i]) in saved.members + B.NewMembers(key, ids[..i])
      ensures !B.CanCreate(saved, key, ids)
    {
      if Member(key, ids[i]) !in saved.members {
        var k :| 0 <= k < i && Member(key, ids[..i][k]) == Member(key, ids[i]);
        assert ids[k] == ids[i];
      }
    }

    method CloseScoreBatch(name: BatchName, state: BatchState, errMsg: Text, fails: nat -> bool) returns (err: bool)
      modifies store
      ensures var db := old(store.Tables());
              store.Tables() == if err then db else B.CloseBatch(db, BatchKey(userID, name), state, errMsg)
      ensures err ==> fails(0) || fails(1)
    {
      var saved := store.Tables();
      var key := BatchKey(userID, name);
      if fails(0) {
        return true;
      }
      if key !in store.batches || store.batches[key].state != Submitted {
        return false;
      }
      store.batches := store.batches[key := store.batches[key].(state := state, error := Nullable(errMsg))];
      if fails(1) {
        store.Rollback(saved);
        return true;
      }
      store.members := set m | m in store.members && m.batch != key;
      return false;
    }

    method CountOpenScoreBatches() returns (n: nat)
      ensures n == B.CountOpenScoreBatches(store.Tables())
    {
      var cutoff := store.now - B.OPEN_BATCH_EXCLUSION_MAX;
      var counted := set key | key in store.batches && store.batches[key].state == Submitted && store.batches[key].createdAt > cutoff;
      assert counted == B.HoldingBatches(store.Tables());
      return |counted|;
    }

    method SumBatchJobsSubmittedSince(since: int) returns (n: nat)
      ensures n == B.SumBatchJobs(store.batches, since)
    {
      n := 0;
      var left := store.batches.Keys;
      while left != {}
        invariant left <= store.batches.Keys
        invariant n + B.SumOver(store.batches, left, since) == B.SumBatchJobs(store.batches, since)
        decreases |left|
      {
        var key :| key in left;
        B.SumOverRemove(store.batches, left, since, key);
        if store.batches[key].createdAt >= since {
          n := n + store.batches[key].jobCount;
        }
        left := left - {key};
      }
    }

    /** `INSERT INTO api_usage .. ON CONFLICT DO UPDATE`: the new row, or the old one plus the delta. */
    method UpsertUsage(uid: User, date: int, model: Model, delta: Usage)
      modifies store`usage
      ensures store.usage == B.AddUsage(old(store.usage), UsageKey(uid, date, model), delta)
      ensures forall k: UsageKey, f: B.Field ::
                B.Balance(store.usage, k, f) ==
                B.Balance(old(store.usage), k, f) + if k == UsageKey(uid, date, model) then B.FieldOf(delta, f) else 0
    {
      var key := UsageKey(uid, date, model);
      if key in store.usage {
        store.usage := store.usage[key := store.usage[key].Plus(delta)];
      } else {
        store.usage := store.usage[key := delta];
      }
    }

    /** One write of the batch: `landed` says that a score landed. Statement `first` is the guarded UPDATE, the next one the archive. */
    method LandWrite(w: B.Write, hash: Text, threshold: int, first: nat, fails: nat -> bool) returns (landed: bool, err: bool)
      modifies store`jobs
      ensures !err ==> store.jobs == B.LandOne(old(store.jobs), userID, w, hash, threshold, store.now)
      ensures !err ==> landed == (w.errMsg == EMPTY && B.Landable(old(store.jobs), userID, w.job))
      ensures !err && landed ==>
                var row := store.jobs[w.job];
                row.score == Val(w.score) && row.reasoning == Val(w.reasoning) &&
                (row.status == Val(Archived) <==> w.score <= threshold) && (w.score <= threshold ==> row.archiveReason == Val(LowScore))
      ensures err ==> fails(first) || fails(first + 1)
    {
      if fails(first) {
        return false, true;
      }
      var hit := w.job in store.jobs && store.jobs[w.job].user == userID &&
                 store.jobs[w.job].status == Val(Pending) && store.jobs[w.job].score.Null?;
      if !hit {
        return false, false;
      }
      var row := store.jobs[w.job];
      if w.errMsg != EMPTY {
        store.jobs := store.jobs[w.job := row.(scoreError := Val(w.errMsg), lastScoreAttemptAt := Val(store.now), updatedAt := store.now)];
        return false, false;
      }
      row := row.(score := Val(w.score), reasoning := Val(w.reasoning), resumeHash := Nullable(hash), scoreError := Null, updatedAt := store.now);
      store.jobs := store.jobs[w.job := row];
      if w.score <= threshold {
        if fails(first + 1) {
          return true, true;
        }
        store.jobs := store.jobs[w.job := row.(status := Val(Archived), archiveReason := Val(LowScore), updatedAt := store.now)];
      }
      return true, false;
    }

    method ApplyBatchScoreResults(name: BatchName, writes: seq<B.Write>, hash: Text, threshold: int, model: Model, delta: Usage, date: int,
                                  fails: nat -> bool)
      returns (applied: nat, claimed: bool, err: bool)
      modifies store
      ensures err ==> store.Tables() == old(store.Tables()) && applied == 0 && !claimed && exists i :: fails(i)
      ensures !err ==>
                var db := old(store.Tables());
                var key := BatchKey(userID, name);
                store.Tables() == B.ApplyBatch(db, key, writes, hash, threshold, model, delta, date) &&
                claimed == B.IsOpen(db, key) && applied == |B.NewlyScored(db.jobs, store.jobs)|
      ensures !err && claimed ==>
                forall id :: id in old(store.jobs) ==>
                  id in store.jobs &&
                  B.LandedRight(old(store.jobs)[id], store.jobs[id], userID, writes, hash, threshold, old(store.now), id)
      ensures !err && claimed ==>
                var key := BatchKey(userID, name);
                key in old(store.batches) && old(store.batches)[key].state == Submitted &&
                store.batches == old(store.batches)[key := old(store.batches)[key].(state := Succeeded, error := Null)] &&
                forall m :: m in store.members <==> m in old(store.members) && m.batch != key
      ensures !err && claimed && delta.calls > 0 ==>
                forall k: UsageKey, f: B.Field ::
                  B.Balance(store.usage, k, f) == B.Balance(old(store.usage), k, f) +
                    (if k == UsageKey(userID, date, model) then B.FieldOf(delta, f) else 0) +
                    (if k == UsageKey(HOST_KEY_USER, date, model) then B.FieldOf(delta, f) else 0)
    {
      hide B.LandOne, B.Landable, B.NewlyScored, B.AddUsage, B.LandedRight, B.Balance, B.FieldOf;
      var saved := store.Tables();
      var key := BatchKey(userID, name);
      if fails(0) {
        return 0, false, true;
      }
      if key !in store.batches || store.batches[key].state != Submitted {
        NothingScored(saved.jobs);
        return 0, false, false;
      }
      store.batches := store.batches[key := store.batches[key].(state := Succeeded, error := Null)];
      applied, claimed := 0, true;
      if fails(1) {
        store.Rollback(saved);
        return 0, false, true;
      }
      store.members := set m | m in store.members && m.batch != key;
      for i := 0 to |writes|
        invariant store.Tables() == B.EndBatch(saved, key, Succeeded, Null).(jobs := store.jobs)
        invariant store.jobs == B.LandAll(saved.jobs, userID, writes[..i], hash, threshold, saved.now)
        invariant applied == B.LandCount(saved.jobs, userID, writes[..i], hash, threshold, saved.now)
      {
        var landed, failed := LandWrite(writes[i], hash, threshold, 2 * i + 2, fails);
        if failed {
          store.Rollback(saved);
          return 0, false, true;
        }
        assert writes[..i + 1][..i] == writes[..i];
        if landed {
          applied := applied + 1;
        }
      }
      assert writes[..|writes|] == writes;
      B.AppliedCountsScoredRows(saved.jobs, userID, writes, hash, threshold, saved.now);
      if delta.calls > 0 {
        var last := 2 * |writes| + 2;
        if fails(last) || fails(last + 1) {
          store.Rollback(saved);
          return 0, false, true;
        }
        UpsertUsage(userID, date, model, delta);
        UpsertUsage(HOST_KEY_USER, date, model, delta);
        forall k: UsageKey, f: B.Field
          ensures B.Balance(store.usage, k, f) == B.Balance(saved.usage, k, f) +
                    (if k == UsageKey(userID, date, model) then B.FieldOf(delta, f) else 0) +
                    (if k == UsageKey(HOST_KEY_USER, date, model) then B.FieldOf(delta, f) else 0)
        { B.BatchUsageBalance(saved.usage, userID, date, model, delta, k, f); }
      }
      forall id | id in saved.jobs
        ensures id in store.jobs && B.LandedRight(saved.jobs[id], store.jobs[id], userID, writes, hash, threshold, saved.now, id)
      { B.LandingIsRight(saved.jobs, userID, writes, hash, threshold, saved.now, id); }
      return applied, claimed, false;
    }

    static lemma NothingScored(jobs: Jobs)
      ensures B.NewlyScored(jobs, jobs) == {}
    {
    }

    // ---------------------------------------------------------------- maintenance.go

    method ArchiveReposts() returns (count: nat)
      modifies store`jobs
      ensures store.jobs == D.Reposts(old(store.jobs), userID, store.now) && count == Affected(old(store.jobs), store.jobs)
    {
      var before := store.jobs;
      store.jobs := map id | id in before ::
        if D.RepostHit(before, userID, id) then AutoArchive(before[id], DedupRepost, store.now) else before[id];
      count := Affected(before, store.jobs);
    }

    method ArchivePendingDuplicates(tie: JobId -> int) returns (count: nat)
      modifies store`jobs
      ensures store.jobs == D.PendingDuplicates(old(store.jobs), userID, tie, store.now) && count == Affected(old(store.jobs), store.jobs)
    {
      var before := store.jobs;
      store.jobs := map id | id in before ::
        if D.PendingHit(before, userID, tie, id) then AutoArchive(before[id], DedupPending, store.now) else before[id];
      count := Affected(before, store.jobs);
    }

    method ArchiveAlternates() returns (count: nat)
      modifies store`jobs
      ensures store.jobs == D.Alternates(old(store.jobs), userID, store.now) && count == Affected(old(store.jobs), store.jobs)
    {
      var before := store.jobs;
      store.jobs := map id | id in before ::
        if D.AlternateHit(before, userID, id) then AutoArchive(before[id], DedupAlternate, store.now) else before[id];
      count := Affected(before, store.jobs);
    }

    /** `tie` is the order in which the engine returns rows that the window order leaves equal. */
    method DedupExistingJobs(tie: JobId -> int, fails: nat -> bool) returns (res: DedupResult, err: bool)
      modifies store
      ensures err ==> store.Tables() == old(store.Tables()) && res.Total() == 0 && exists i :: fails(i)
      ensures !err ==>
                var db := old(store.Tables());
                store.Tables() == db.(jobs := D.DedupAll(db.jobs, userID, tie, db.now)) &&
                var j1 := D.Reposts(db.jobs, userID, db.now);
                var j2 := D.PendingDuplicates(j1, userID, tie, db.now);
                res.reposts == Affected(db.jobs, j1) && res.pending == Affected(j1, j2) && res.alternates == Affected(j2, store.jobs) &&
                res.Total() == Affected(db.jobs, store.jobs)
      ensures !err && D.Injective(tie) ==>
                store.jobs.Keys == old(store.jobs).Keys && forall r :: r in old(store.jobs) ==> D.BestKept(old(store.jobs), store.jobs, r)
    {
      hide D.Reposts, D.PendingDuplicates, D.Alternates, Affected, D.BestKept, D.Injective;
      var saved := store.Tables();
      res := DedupResult(0, 0, 0);
      if fails(0) {
        return res, true;
      }
      var reposts := ArchiveReposts();
      if fails(1) {
        store.Rollback(saved);
        return res, true;
      }
      var pending := ArchivePendingDuplicates(tie);
      if fails(2) {
        store.Rollback(saved);
        return res, true;
      }
      var alternates := ArchiveAlternates();
      PassesKeepArchived(saved.jobs, userID, tie, saved.now);
      if D.Injective(tie) {
        forall r | r in saved.jobs
          ensures saved.jobs.Keys == store.jobs.Keys && D.BestKept(saved.jobs, store.jobs, r)
        { D.RunKeepsBest(saved.jobs, userID, tie, saved.now, r); }
        D.DedupAllKeys(saved.jobs, userID, tie, saved.now);
      }
      return DedupResult(reposts, pending, alternates), false;
    }

    method ArchiveStaleUnscored(days: int) returns (count: nat)
      modifies store`jobs
      ensures store.jobs == S.ArchiveStale(old(store.jobs), userID, days, store.now)
      ensures count == Affected(old(store.jobs), store.jobs)
    {
      var before := store.jobs;
      store.jobs := map id | id in before ::
        if before[id].status == Val(Pending) && before[id].score.Null? && before[id].user == userID &&
           ((before[id].postedAt.Val? && before[id].postedAt.v < store.now - days * 86400) ||
            (before[id].postedAt.Null? && before[id].firstSeenAt.Val? && before[id].firstSeenAt.v < store.now - days * 86400))
        then AutoArchive(before[id], StaleUnscored, store.now) else before[id];
      count := Affected(before, store.jobs);
    }

    /** The select of AutoGhostStale; the order of its rows is the engine's. */
    method StaleApplied(days: int) returns (list: seq<P.GhostItem>)
      ensures forall item :: item in list <==> item in P.GhostItems(store.jobs, userID, days, store.now)
      ensures |list| == |P.GhostItems(store.jobs, userID, days, store.now)|
    {
      var left := set id | id in store.jobs && store.jobs[id].status == Val(Applied) &&
                           (store.jobs[id].stage.Null? || store.jobs[id].stage == Val(Applied)) && store.jobs[id].appliedAt.Val? &&
                           store.jobs[id].appliedAt.v < store.now - days * 86400 && store.jobs[id].user == userID
                         :: P.GhostItem(id, Coalesce(store.jobs[id].stage, Blank));
      assert left == P.GhostItems(store.jobs, userID, days, store.now);
      list := [];
      while left != {}
        invariant left <= P.GhostItems(store.jobs, userID, days, store.now)
        invariant forall item :: item in list <==> item in P.GhostItems(store.jobs, userID, days, store.now) - left
        invariant |list| + |left| == |P.GhostItems(store.jobs, userID, days, store.now)|
        decreases |left|
      {
        var item :| item in left;
        list := list + [item];
        left := left - {item};
      }
    }

    /** One row of the list: statement `first` is the UPDATE, the next one the event, whose foreign key needs the job. */
    method GhostRow(item: P.GhostItem, first: nat, fails: nat -> bool) returns (err: bool)
      modifies store
      ensures !err ==> store.Tables() == P.GhostOne(old(store.Tables()), userID, item) && item.id in store.jobs
      ensures err ==> fails(first) || fails(first + 1) || item.id !in old(store.jobs)
    {
      if fails(first) {
        return true;
      }
      if item.id in store.jobs && store.jobs[item.id].user == userID {
        store.jobs := store.jobs[item.id := store.jobs[item.id].(status := Val(Ghosted), stage := Val(Ghosted), updatedAt := store.now)];
      }
      var from := if item.stage == Blank then Applied else item.stage;
      if fails(first + 1) || item.id !in store.jobs {
        return true;
      }
      store.events := store.events + [Event(userID, item.id, StageChange, Val(from), Val(Ghosted), store.now)];
      return false;
    }

    /** The transaction of AutoGhostStale, on the rows that its select returned. */
    method GhostAll(list: seq<P.GhostItem>, fails: nat -> bool) returns (err: bool)
      modifies store
      ensures var db := old(store.Tables()); store.Tables() == if err then db else P.GhostWrite(db, userID, list)
      ensures err <== !P.AllExist(old(store.jobs), list)
      ensures err ==> !P.AllExist(old(store.jobs), list) || exists i :: fails(i)
    {
      hide P.GhostOne;
      var saved := store.Tables();
      for i := 0 to |list|
        invariant store.Tables() == P.GhostAll(saved, userID, list[..i])
        invariant P.AllExist(saved.jobs, list[..i])
      {
        P.GhostKeys(saved, userID, list[..i]);
        var failed := GhostRow(list[i], 2 * i, fails);
        if failed {
          store.Rollback(saved);
          return true;
        }
        assert list[..i + 1][..i] == list[..i];
        P.GhostKeys(saved, userID, list[..i + 1]);
      }
      assert list[..|list|] == list;
      return false;
    }

    /** Without another transaction in between, every row that the select found is ghosted and logged once. */
    method AutoGhostStale(days: int, fails: nat -> bool) returns (count: nat, err: bool)
      modifies store
      ensures err ==> store.Tables() == old(store.Tables()) && count == 0 && exists i :: fails(i)
      ensures !err ==>
                count == |P.GhostItems(old(store.jobs), userID, days, old(store.now))| &&
                store.Tables() == old(store.Tables()).(jobs := store.jobs, events := store.events) &&
                store.jobs.Keys == old(store.jobs).Keys &&
                EachLogged(old(store.Tables()), userID, days, store.events, count) &&
                forall id :: id in store.jobs ==>
                  store.jobs[id] == if WaitsSince(old(store.jobs)[id], userID, old(store.now) - days * 24 * 3600)
                                    then old(store.jobs)[id].(status := Val(Ghosted), stage := Val(Ghosted), updatedAt := old(store.now))
                                    else old(store.jobs)[id]
    {
      var list := StaleApplied(days);
      ghost var saved := store.Tables();
      forall item | item in list
        ensures item.id in store.jobs
      { }
      if list == [] {
        NoGhosts(saved.jobs, userID, days, saved.now);
        WaitingLogged(saved, userID, days, []);
        return 0, false;
      }
      err := GhostAll(list, fails);
      if err {
        return 0, true;
      }
      GhostedExactly(saved, userID, days, list);
      WaitingLogged(saved, userID, days, list);
      return |list|, false;
    }

    /** Applied before `cutoff` and not advanced. */
    static predicate WaitsSince(j: Job, user: User, cutoff: int) {
      j.user == user && j.status == Val(Applied) && (j.stage.Null? || j.stage == Val(Applied)) && j.appliedAt.Val? && j.appliedAt.v < cutoff
    }

    /** The log is the old one and one event from `applied` to `ghosted` for each waiting row, in the order in which the engine returned them. */
    static ghost predicate EachLogged(db: Db, user: User, days: int, events: seq<Event>, count: nat) {
      exists ids: seq<JobId> ::
        |ids| == count && (forall i, j :: 0 <= i < j < |ids| ==> ids[i] != ids[j]) &&
        (forall id :: id in ids <==> id in db.jobs && WaitsSince(db.jobs[id], user, db.now - days * 24 * 3600)) &&
        events == db.events + seq(|ids|, i requires 0 <= i < |ids| => Event(user, ids[i], StageChange, Val(Applied), Val(Ghosted), db.now))
    }

    static lemma {:induction false} ManyAtMost<T>(xs: seq<T>, found: set<T>)
      requires forall x :: x in found <==> x in xs
      ensures |found| <= |xs|
    {
      if xs == [] {
        assert found == {};
      } else {
        var n := |xs| - 1;
        var others := set x | x in xs[..n];
        ManyAtMost(xs[..n], others);
        assert found == others + {xs[n]};
      }
    }

    static lemma LastIsNew(items: seq<P.GhostItem>, found: set<P.GhostItem>, others: set<P.GhostItem>)
      requires items != [] && |items| == |found| && forall item :: item in items <==> item in found
      requires forall item :: item in others <==> item in items[..|items| - 1]
      ensures items[|items| - 1] !in others && |others| == |items| - 1
    {
      ManyAtMost(items[..|items| - 1], others);
      assert found == others + {items[|items| - 1]};
    }

    static lemma {:induction false} ItemsDiffer(items: seq<P.GhostItem>, found: set<P.GhostItem>)
      requires |items| == |found| && forall item :: item in items <==> item in found
      ensures forall i, j :: 0 <= i < j < |items| ==> items[i] != items[j]
    {
      if items != [] {
        var n := |items| - 1;
        var others := set item | item in items[..n];
        LastIsNew(items, found, others);
        ItemsDiffer(items[..n], others);
        forall i, j | 0 <= i < j < |items|
          ensures items[i] != items[j]
        {
          assert items[i] == items[..n][i] && items[i] in others;
          if j < n { assert items[j] == items[..n][j]; }
        }
      }
    }

    static lemma WaitingLogged(db: Db, user: User, days: int, list: seq<P.GhostItem>)
      requires forall item :: item in list <==> item in P.GhostItems(db.jobs, user, days, db.now)
      requires |list| == |P.GhostItems(db.jobs, user, days, db.now)|
      ensures EachLogged(db, user, days, db.events + P.GhostEvents(user, list, db.now), |list|)
    {
      var ids := seq(|list|, i requires 0 <= i < |list| => list[i].id);
      ItemsDiffer(list, P.GhostItems(db.jobs, user, days, db.now));
      forall i | 0 <= i < |list|
        ensures list[i].id in db.jobs && P.GhostHit(db.jobs[list[i].id], user, days, db.now) && P.OrApplied(list[i].stage) == Applied
        ensures list[i] == P.GhostItem(ids[i], Coalesce(db.jobs[ids[i]].stage, Blank))
      { assert list[i] in list; }
      forall i, j | 0 <= i < j < |ids| ensures ids[i] != ids[j] { assert list[i] != list[j]; }
      forall id | id in db.jobs && WaitsSince(db.jobs[id], user, db.now - days * 24 * 3600)
        ensures id in ids
      {
        var item := P.GhostItem(id, Coalesce(db.jobs[id].stage, Blank));
        assert item in P.GhostItems(db.jobs, user, days, db.now);
        var i :| 0 <= i < |list| && list[i] == item;
        assert ids[i] == id;
      }
      assert P.GhostEvents(user, list, db.now) ==
             seq(|ids|, i requires 0 <= i < |ids| => Event(user, ids[i], StageChange, Val(Applied), Val(Ghosted), db.now));
    }

    static lemma NoGhosts(jobs: Jobs, user: User, days: int, now: int)
      requires P.GhostItems(jobs, user, days, now) == {}
      ensures forall id :: id in jobs ==> !P.GhostHit(jobs[id], user, days, now)
    {
      forall id | id in jobs && P.GhostHit(jobs[id], user, days, now)
        ensures P.GhostItem(id, Coalesce(jobs[id].stage, Blank)) in P.GhostItems(jobs, user, days, now)
      { }
    }

    static lemma GhostedExactly(db: Db, user: User, days: int, list: seq<P.GhostItem>)
      requires forall item :: item in list <==> item in P.GhostItems(db.jobs, user, days, db.now)
      ensures P.GhostAll(db, user, list).jobs.Keys == db.jobs.Keys
      ensures P.GhostAll(db, user, list).events == db.events + P.GhostEvents(user, list, db.now)
      ensures P.GhostAll(db, user, list) == db.(jobs := P.GhostAll(db, user, list).jobs, events := P.GhostAll(db, user, list).events)
      ensures forall id :: id in db.jobs ==>
                P.GhostAll(db, user, list).jobs[id] ==
                if P.GhostHit(db.jobs[id], user, days, db.now) then P.GhostedRow(db.jobs[id], db.now) else db.jobs[id]
    {
      hide P.GhostAll, P.GhostedRow, P.GhostHit, P.GhostItems, P.GhostEvents;
      P.GhostKeys(db, user, list);
      P.GhostAllLogs(db, user, list);
      P.GhostAllFrame(db, user, list);
      forall id | id in db.jobs
        ensures P.GhostAll(db, user, list).jobs[id] ==
                if P.GhostHit(db.jobs[id], user, days, db.now) then P.GhostedRow(db.jobs[id], db.now) else db.jobs[id]
      {
        P.GhostAllRow(db, user, list, id);
        ListedIsHit(db, user, days, list, id);
      }
    }

    static lemma ListedIsHit(db: Db, user: User, days: int, list: seq<P.GhostItem>, id: JobId)
      requires id in db.jobs && forall item :: item in list <==> item in P.GhostItems(db.jobs, user, days, db.now)
      ensures P.GhostHit(db.jobs[id], user, days, db.now) <==> P.Ids(list, id) && db.jobs[id].user == user
    {
      if P.GhostHit(db.jobs[id], user, days, db.now) {
        assert P.GhostItem(id, Coalesce(db.jobs[id].stage, Blank)) in list;
      }
      if P.Ids(list, id) {
        var i :| 0 <= i < |list| && list[i].id == id;
        assert list[i] in list;
      }
    }

    // ---------------------------------------------------------------- dashboard.go

    method ArchiveJob(id: JobId, fails: nat -> bool) returns (err: bool)
      modifies store
      ensures var db := old(store.Tables()); store.Tables() == if err then db else P.ArchiveJob(db, userID, id)
      ensures err <==> fails(0) || fails(1) || id !in old(store.jobs)
    {
      var saved := store.Tables();
      if fails(0) {
        return true;
      }
      if id in store.jobs && store.jobs[id].user == userID {
        store.jobs := store.jobs[id := store.jobs[id].(status := Val(Archived), updatedAt := store.now)];
      }
      if fails(1) || id !in store.jobs {
        store.Rollback(saved);
        return true;
      }
      store.events := store.events + [Event(userID, id, StatusChange, Null, Val(Archived), store.now)];
      return false;
    }

    /** The UPDATE of SetPipelineStage. */
    method StageRow(j: Job, value: Word, now: int) returns (row: Job)
      requires value in PIPELINE_VALUES
      ensures row == P.Staged(j, value, now)
    {
      row := j.(updatedAt := now);
      if value == Blank {
        row := row.(status := Val(Pending), stage := Null);
      } else if value == Closed {
        row := row.(status := Val(Closed), stage := Val(Closed));
      } else if value == Rejected {
        row := row.(status := Val(Rejected), stage := Val(Rejected), rejectedFromStage := j.stage, rejectedAt := Val(now));
      } else if value == Ghosted {
        row := row.(status := Val(Ghosted), stage := Val(Ghosted));
      } else {
        row := row.(status := Val(Applied), stage := Val(value), appliedAt := Val(Coalesce(row.appliedAt, now)));
      }
    }

    method SetPipelineStage(id: JobId, value: Word, fails: nat -> bool) returns (err: bool)
      requires value in PIPELINE_VALUES
      modifies store
      ensures var db := old(store.Tables()); store.Tables() == if err then db else P.SetPipelineStage(db, userID, id, value)
      ensures err <==> fails(0) || fails(1) || fails(2) || !Owns(old(store.jobs), userID, id)
    {
      hide P.Staged;
      var saved := store.Tables();
      if fails(0) || id !in store.jobs || store.jobs[id].user != userID {
        return true;
      }
      var fromStage := Coalesce(store.jobs[id].stage, Blank);
      if fails(1) {
        return true;
      }
      var row := StageRow(store.jobs[id], value, store.now);
      store.jobs := store.jobs[id := row];
      if fails(2) {
        store.Rollback(saved);
        return true;
      }
      store.events := store.events + [Event(userID, id, StageChange, NullableWord(fromStage), NullableWord(value), store.now)];
      return false;
    }

    // ---------------------------------------------------------------- scoring.go and rescore.go

    /** GetUnscoredJobs without a limit: the rows, not their order. */
    method GetUnscoredJobs() returns (ids: set<JobId>)
      ensures ids == B.UnscoredJobs(store.Tables(), userID)
    {
      var cutoff := store.now - B.OPEN_BATCH_EXCLUSION_MAX;
      var held := set m | m in store.members && m.batch.user == userID && m.batch in store.batches &&
                          store.batches[m.batch].state == Submitted && store.batches[m.batch].createdAt > cutoff :: m.job;
      ids := set id | id in store.jobs && store.jobs[id].score.Null? && store.jobs[id].user == userID &&
                      (store.jobs[id].status == Val(Pending) ||
                       ((store.jobs[id].status == Val(Applied) || store.jobs[id].status == Val(Responded)) &&
                        Coalesce(store.jobs[id].stage, Blank) !in {Closed, Rejected, Ghosted})) &&
                      Coalesce(store.jobs[id].description, EMPTY) != EMPTY && id !in held;
    }

    method CountStaleScores(current: Text) returns (n: nat)
      ensures n == |S.StaleScores(store.jobs, userID, current)|
    {
      if current == EMPTY {
        return 0;
      }
      var stale := set id | id in store.jobs && store.jobs[id].user == userID && store.jobs[id].status == Val(Pending) &&
                            store.jobs[id].score.Val? && store.jobs[id].resumeHash.Val? && store.jobs[id].resumeHash.v != current;
      assert stale == S.StaleScores(store.jobs, userID, current);
      return |stale|;
    }

    method MarkScoreAttempt(id: JobId)
      modifies store`jobs
      ensures store.jobs == S.MarkAttempt(old(store.jobs), userID, id, store.now)
    {
      if id in store.jobs && store.jobs[id].user == userID {
        var row := store.jobs[id].(lastScoreAttemptAt := Val(store.now), scoreError := Null, updatedAt := store.now);
        store.jobs := store.jobs[id := row.(scoreAttempts := Val(1 + Coalesce(row.scoreAttempts, 0)))];
      }
    }

    method MarkScoreFailure(id: JobId, errMsg: Text)
      modifies store`jobs
      ensures store.jobs == S.MarkFailure(old(store.jobs), userID, id, errMsg, store.now)
    {
      if id in store.jobs && store.jobs[id].user == userID {
        store.jobs := store.jobs[id := store.jobs[id].(scoreError := Val(errMsg), updatedAt := store.now)];
      }
    }

    method UpdateJobScoreForResume(id: JobId, score: int, reasoning: Text, hash: Text)
      modifies store`jobs
      ensures store.jobs == S.ScoreJob(old(store.jobs), userID, id, score, reasoning, hash, store.now)
    {
      if id in store.jobs && store.jobs[id].user == userID {
        var row := store.jobs[id].(score := Val(score), reasoning := Val(reasoning), scoreError := Null, updatedAt := store.now);
        if hash != EMPTY {
          row := row.(resumeHash := Val(hash));
        }
        store.jobs := store.jobs[id := row];
      }
    }

    method RequeueStaleHighScores(current: Text, minScore: int) returns (count: nat)
      modifies store`jobs
      ensures store.jobs == S.RequeueStale(old(store.jobs), userID, current, minScore, store.now)
      ensures count == |B.NewlyScored(store.jobs, old(store.jobs))|
    {
      hide B.NewlyScored;
      var before := store.jobs;
      if current == EMPTY {
        assert S.RequeueStale(before, userID, current, minScore, store.now) == before;
        NothingScored(before);
        return 0;
      }
      var hits := set id | id in before && before[id].user == userID && before[id].status == Val(Pending) && before[id].score.Val? &&
                           before[id].score.v >= minScore && before[id].resumeHash.Val? && before[id].resumeHash.v != current;
      store.jobs := map id | id in before ::
        if id in hits then before[id].(score := Null, reasoning := Null, resumeHash := Null, scoreError := Null, updatedAt := store.now)
        else before[id];
      assert store.jobs == S.RequeueStale(before, userID, current, minScore, store.now);
      Unscores(before, userID, current, minScore, store.now, hits);
      return |hits|;
    }

    static lemma Unscores(jobs: Jobs, user: User, current: Text, minScore: int, now: int, hits: set<JobId>)
      requires forall id :: id in hits <==> id in jobs && S.RequeueHit(jobs[id], user, current, minScore)
      ensures B.NewlyScored(S.RequeueStale(jobs, user, current, minScore, now), jobs) == hits
    {
    }

    method AutoArchiveLowScore(id: JobId, threshold: int)
      modifies store`jobs
      ensures store.jobs == S.ArchiveLowScore(old(store.jobs), userID, id, threshold, store.now)
    {
      if id in store.jobs {
        var row := store.jobs[id];
        if row.user == userID && row.status == Val(Pending) && row.score.Val? && row.score.v <= threshold {
          store.jobs := store.jobs[id := row.(status := Val(Archived), archiveReason := Val(LowScore), updatedAt := store.now)];
        }
      }
    }

    method ArchivePrefiltered(id: JobId, reason: Reason) returns (landed: bool)
      modifies store`jobs
      ensures store.jobs == S.ArchivePrefiltered(old(store.jobs), userID, id, reason, store.now)
      ensures landed == S.PrefilterHit(old(store.jobs), userID, id)
    {
      landed := id in store.jobs && store.jobs[id].user == userID && store.jobs[id].score.Null? && store.jobs[id].status == Val(Pending);
      if landed {
        store.jobs := store.jobs[id := store.jobs[id].(status := Val(Archived), archiveReason := Val(reason), updatedAt := store.now)];
      }
    }

    method UnarchiveAboveThreshold(ids: seq<JobId>, threshold: int) returns (count: nat)
      modifies store`jobs
      ensures store.jobs == S.Unarchive(old(store.jobs), userID, ids, threshold, store.now)
      ensures count == Affected(old(store.jobs), store.jobs)
    {
      var before := store.jobs;
      if ids == [] {
        assert S.Unarchive(before, userID, ids, threshold, store.now) == before;
        assert D.Archived3(before, before) == {};
        return 0;
      }
      store.jobs := map id | id in before ::
        if before[id].user == userID && before[id].status == Val(Archived) && before[id].score.Val? && before[id].score.v > threshold &&
           (before[id].archiveReason == Val(LowScore) || before[id].archiveReason == Val(StaleUnscored)) && id in ids
        then before[id].(status := Val(Pending), archiveReason := Null, updatedAt := store.now) else before[id];
      return Affected(before, store.jobs);
    }

    // ---------------------------------------------------------------- canonicalize.go

    method InsertCanonicalJob(r: C.ResolvedJob, alt: Job, rowId: JobId)
      modifies store`jobs
      ensures var inserted := C.InsertCanonical(old(store.jobs), userID, rowId, r, alt, store.now);
              store.jobs == if Owns(inserted, userID, rowId)
                            then inserted[rowId := C.BackfilledRow(inserted[rowId], r, alt, store.now)] else inserted
    {
      if rowId !in store.jobs && !exists k :: k in store.jobs && store.jobs[k].user == userID && store.jobs[k].globalId == Val(r.id) {
        store.jobs := store.jobs[rowId := C.InsertedRow(userID, r, alt, store.now)];
      }
      if rowId in store.jobs && store.jobs[rowId].user == userID {
        store.jobs := store.jobs[rowId := C.BackfilledRow(store.jobs[rowId], r, alt, store.now)];
      }
    }

    method MergeAlternateState(alt: Job, rowId: JobId)
      modifies store`jobs
      ensures store.jobs == if Owns(old(store.jobs), userID, rowId)
                            then old(store.jobs)[rowId := C.MergedRow(old(store.jobs)[rowId], alt, store.now)] else old(store.jobs)
    {
      if rowId in store.jobs && store.jobs[rowId].user == userID {
        store.jobs := store.jobs[rowId := C.MergedRow(store.jobs[rowId], alt, store.now)];
      }
    }

    method RekeyDependentRows(altId: JobId, rowId: JobId)
      modifies store`events, store`rejections
      ensures store.events == C.RekeyEvents(old(store.events), userID, altId, rowId)
      ensures store.rejections == C.RekeyRejections(old(store.rejections), userID, altId, rowId)
    {
      var es, rs := store.events, store.rejections;
      for i := 0 to |es|
        invariant store.rejections == rs && |store.events| == |es| && store.events[i..] == es[i..]
        invariant forall k :: 0 <= k < i ==> store.events[k] == C.Rekey(es[k], userID, altId, rowId)
      {
        assert store.events[i] == store.events[i..][0] == es[i];
        if es[i].user == userID && es[i].job == altId {
          store.events := store.events[i := es[i].(job := rowId)];
        }
      }
      for i := 0 to |rs|
        invariant store.events == C.RekeyEvents(es, userID, altId, rowId)
        invariant |store.rejections| == |rs| && store.rejections[i..] == rs[i..]
        invariant forall k :: 0 <= k < i ==> store.rejections[k] == C.RekeyRejections(rs, userID, altId, rowId)[k]
      {
        assert store.rejections[i] == store.rejections[i..][0] == rs[i];
        if rs[i].user == userID && rs[i].matchedJob == Val(altId) {
          store.rejections := store.rejections[i := rs[i].(matchedJob := Val(rowId))];
        }
      }
    }

    method ArchiveAlternateJob(altId: JobId, reason: Reason)
      modifies store`jobs
      ensures store.jobs == C.ArchiveAlternate(old(store.jobs), userID, altId, reason, store.now)
    {
      if altId in store.jobs && store.jobs[altId].user == userID {
        store.jobs := store.jobs[altId := store.jobs[altId].(status := Val(Archived), archiveReason := Val(reason), updatedAt := store.now)];
      }
    }

    /** The upsert of the alias; its foreign keys fail it. */
    method RecordJobAlias(altId: JobId, alt: Job, res: C.Resolution, canonical: Opt<JobId>, status: C.ResolutionStatus) returns (err: bool)
      modifies store`aliases
      ensures err <==> !C.AliasKeysExist(store.jobs, altId, canonical)
      ensures store.aliases == if err then old(store.aliases)
                               else C.Aliased(old(store.aliases), userID, altId, alt, res, canonical, status, store.now)
    {
      if altId !in store.jobs || (canonical.Val? && canonical.v !in store.jobs) {
        return true;
      }
      hide C.NullIfBlankWord, C.NullIfBlank, C.StatusWord, NullableWord, Nullable, C.AliasKeysExist;
      var confidence := if res.confidence != 0.0 then Val(res.confidence) else Null;
      var row := Alias(userID, canonical, C.NullIfBlankWord(alt.platform), C.NullIfBlank(alt.url), NullableWord(res.platform),
                       Nullable(res.url), C.StatusWord(status), confidence, res.evidence, store.now);
      if altId in store.aliases {
        row := row.(user := store.aliases[altId].user);
      }
      store.aliases := store.aliases[altId := row];
      return false;
    }

    /** A resolution without a primary posting: alias only, and the archive of an unsupported alternate. */
    method RecordOther(altId: JobId, alt: Job, res: C.Resolution, fails: nat -> bool) returns (err: bool)
      requires altId != EMPTY && !C.IsPrimaryResolution(res)
      modifies store
      ensures !err ==> store.Tables() == C.CanonicalizeOther(old(store.Tables()), userID, altId, alt, res)
      ensures !C.AliasKeysExist(old(store.jobs), altId, C.AliasTarget(res)) ==> err
      ensures err ==> !C.AliasKeysExist(old(store.jobs), altId, C.AliasTarget(res)) || exists i :: fails(i)
    {
      hide C.Aliased, C.ArchiveAlternate;
      var note := C.ResolutionEvent(store.Tables(), userID, altId, alt, UnsupportedUrl);
      err := RecordJobAlias(altId, alt, res, C.AliasTarget(res), res.status);
      if err || fails(0) {
        return true;
      }
      if res.status == C.Unsupported {
        ArchiveAlternateJob(altId, UnsupportedAlternate);
        if fails(1) {
          return true;
        }
        store.events := store.events + [note];
      }
      return false;
    }

    /** The canonical row: inserted or backfilled, then merged with the alternate. */
    method FoldAlternate(r: C.ResolvedJob, alt: Job, rowId: JobId, fails: nat -> bool) returns (err: bool)
      modifies store`jobs
      ensures !err ==> store.jobs == C.FoldedJobs(old(store.jobs), userID, rowId, r, alt, store.now)
      ensures err ==> fails(0) || fails(1)
    {
      InsertCanonicalJob(r, alt, rowId);
      if fails(0) {
        return true;
      }
      MergeAlternateState(alt, rowId);
      return fails(1);
    }

    /** Fold into the canonical row, re-key, record the alias, archive the alternate, log. */
    method FoldIntoPrimary(altId: JobId, alt: Job, res: C.Resolution, rowId: JobId, fails: nat -> bool) returns (err: bool)
      requires altId != EMPTY && C.IsPrimaryResolution(res)
      modifies store
      ensures !err ==> store.Tables() == C.CanonicalizePrimary(old(store.Tables()), userID, altId, alt, res, rowId)
      ensures !C.Commits(old(store.Tables()), userID, altId, alt, res, rowId) ==> err
      ensures err ==> !C.Commits(old(store.Tables()), userID, altId, alt, res, rowId) || exists i :: fails(i)
    {
      hide C.FoldedJobs, C.RekeyEvents, C.RekeyRejections, C.Aliased, C.ArchiveAlternate;
      var note := C.ResolutionEvent(store.Tables(), userID, rowId, alt, res.platform);
      err := FoldAlternate(res.job.v, alt, rowId, fails);
      if err {
        return true;
      }
      RekeyDependentRows(altId, rowId);
      err := RecordJobAlias(altId, alt, res, Val(rowId), C.Primary);
      if err || fails(2) {
        return true;
      }
      ArchiveAlternateJob(altId, Canonicalized);
      if fails(3) {
        return true;
      }
      store.events := store.events + [note];
      return false;
    }

    /** `alt` is the alternate as its caller read it, `rowId` the tenant's row id of the resolved posting. */
    method CanonicalizeAlternateJob(altId: JobId, alt: Job, res: C.Resolution, rowId: JobId, fails: nat -> bool)
      returns (result: CanonicalizeResult, err: bool)
      modifies store
      ensures !err && C.IsPrimaryResolution(res) ==> result == CanonicalizeResult(Canonicalizes, rowId)
      ensures !err && !C.IsPrimaryResolution(res) ==> result == CanonicalizeResult(Records(res.status), EMPTY)
      ensures err ==> result == NOTHING_DONE
      ensures var db := old(store.Tables());
              store.Tables() == if err then db else C.CanonicalizeJob(db, userID, altId, alt, res, rowId)
      ensures !C.Commits(old(store.Tables()), userID, altId, alt, res, rowId) ==> err
      ensures err ==> !C.Commits(old(store.Tables()), userID, altId, alt, res, rowId) || exists i :: fails(i)
      ensures !err && C.IsPrimaryResolution(res) && Owns(old(store.jobs), userID, rowId) && rowId != altId ==>
                rowId in store.jobs && C.MergedStatus(old(store.jobs)[rowId].status, alt.status, store.jobs[rowId].status)
    {
      if C.IsPrimaryResolution(res) && Owns(store.jobs, userID, rowId) && rowId != altId && C.Commits(store.Tables(), userID, altId, alt, res, rowId) {
        C.CanonicalStatus(store.Tables(), userID, altId, alt, res, rowId);
      }
      result := NOTHING_DONE;
      if altId == EMPTY {
        return result, true;
      }
      var saved := store.Tables();
      if C.IsPrimaryResolution(res) {
        err := FoldIntoPrimary(altId, alt, res, rowId, fails);
        if !err { result := CanonicalizeResult(Canonicalizes, rowId); }
      } else {
        err := RecordOther(altId, alt, res, fails);
        if !err { result := CanonicalizeResult(Records(res.status), EMPTY); }
      }
      if err {
        store.Rollback(saved);
      }
    }
  }
}
