/** The three dedup passes of maintenance.go: each is one UPDATE over the whole jobs table. */
module Dedup {
  import opened Sql
  import opened Tables

  // ---------------------------------------------------------------- the passes

  /** `LOWER(TRIM(..)) = LOWER(TRIM(..))` on title and on company: NULLs never match. */
  predicate SameListing(a: Job, b: Job) {
    a.user == b.user && Same(a.title, b.title) && Same(a.company, b.company)
  }

  /** `PARTITION BY` and `GROUP BY` on the same two columns: NULLs fall into one group. */
  predicate SameGroup(a: Job, b: Job) {
    a.user == b.user && a.title == b.title && a.company == b.company
  }

  predicate IsPending(j: Job, user: User) { j.user == user && Is(j.status, Pending) }

  predicate IsUnscored(j: Job, user: User) { IsPending(j, user) && j.score.Null? }

  /** A row that was reviewed and then dismissed: archived, scored, without a stage. */
  predicate Dismissed(j: Job) {
    Is(j.status, Archived) && j.score.Val? && (j.stage.Null? || Is(j.stage, Blank))
  }

  predicate RepostHit(jobs: Jobs, user: User, id: JobId)
    requires id in jobs
  {
    IsUnscored(jobs[id], user) &&
    exists k :: k in jobs && k != id && SameListing(jobs[k], jobs[id]) && Dismissed(jobs[k])
  }

  function Reposts(jobs: Jobs, user: User, now: int): Jobs {
    map id | id in jobs :: if RepostHit(jobs, user, id) then AutoArchive(jobs[id], DedupRepost, now) else jobs[id]
  }

  /** The window order: primary platforms first, then newest; `tie` stands for the engine's order of equal rows. */
  predicate Before(jobs: Jobs, tie: JobId -> int, a: JobId, b: JobId)
    requires a in jobs && b in jobs
  {
    if IsPrimary(jobs[a]) != IsPrimary(jobs[b]) then IsPrimary(jobs[a])
    else if jobs[a].createdAt != jobs[b].createdAt then jobs[a].createdAt > jobs[b].createdAt
    else tie(a) < tie(b)
  }

  /** The row with `ROW_NUMBER() = 1` in its group of pending rows. */
  predicate RanksFirst(jobs: Jobs, user: User, tie: JobId -> int, id: JobId)
    requires id in jobs
  {
    IsPending(jobs[id], user) &&
    forall k :: k in jobs && k != id && IsPending(jobs[k], user) && SameGroup(jobs[k], jobs[id])
      ==> Before(jobs, tie, id, k)
  }

  predicate PendingHit(jobs: Jobs, user: User, tie: JobId -> int, id: JobId)
    requires id in jobs
  {
    IsUnscored(jobs[id], user) && !RanksFirst(jobs, user, tie, id) &&
    exists k :: k in jobs && k != id && SameListing(jobs[k], jobs[id]) && Is(jobs[k].status, Pending)
  }

  function PendingDuplicates(jobs: Jobs, user: User, tie: JobId -> int, now: int): Jobs {
    map id | id in jobs :: if PendingHit(jobs, user, tie, id) then AutoArchive(jobs[id], DedupPending, now) else jobs[id]
  }

  predicate AlternateHit(jobs: Jobs, user: User, id: JobId)
    requires id in jobs
  {
    IsPending(jobs[id], user) && !IsPrimary(jobs[id]) &&
    exists k :: k in jobs && k != id && IsPrimary(jobs[k]) && SameListing(jobs[k], jobs[id]) && NotIn(jobs[k].status, {Archived})
  }

  function Alternates(jobs: Jobs, user: User, now: int): Jobs {
    map id | id in jobs :: if AlternateHit(jobs, user, id) then AutoArchive(jobs[id], DedupAlternate, now) else jobs[id]
  }

  function AfterPending(jobs: Jobs, user: User, tie: JobId -> int, now: int): Jobs {
    PendingDuplicates(Reposts(jobs, user, now), user, tie, now)
  }

  function DedupAll(jobs: Jobs, user: User, tie: JobId -> int, now: int): Jobs {
    Alternates(AfterPending(jobs, user, tie, now), user, now)
  }

  /** The rows that a statement wrote. */
  function Archived3(before: Jobs, after: Jobs): set<JobId> {
    set id | id in before && id in after && before[id].status != after[id].status
  }

  ghost predicate Injective(tie: JobId -> int) {
    forall a: JobId, b: JobId :: tie(a) == tie(b) ==> a == b
  }

  // ---------------------------------------------------------------- what a run of the passes may change

  /** A dedup pass either leaves a row alone or archives a pending row of its own tenant. */
  predicate DedupStep(before: Job, after: Job, user: User, now: int) {
    after == before ||
    (IsPending(before, user) && exists r :: r in {DedupRepost, DedupPending, DedupAlternate} && after == AutoArchive(before, r, now))
  }

  lemma DedupFrame(jobs: Jobs, user: User, tie: JobId -> int, now: int, id: JobId)
    requires id in jobs
    ensures DedupAll(jobs, user, tie, now).Keys == jobs.Keys
    ensures DedupStep(jobs[id], DedupAll(jobs, user, tie, now)[id], user, now)
    ensures IsPrimary(DedupAll(jobs, user, tie, now)[id]) == IsPrimary(jobs[id])
  {
  }

  /** Some pending row of the group ranks first. */
  lemma {:induction false} FirstOfSet(jobs: Jobs, user: User, tie: JobId -> int, group: set<JobId>) returns (w: JobId)
    requires Injective(tie) && group != {} && group <= jobs.Keys
    ensures w in group
    ensures forall k :: k in group && k != w ==> Before(jobs, tie, w, k)
    decreases |group|
  {
    var x :| x in group;
    if group == {x} {
      w := x;
    } else {
      var v := FirstOfSet(jobs, user, tie, group - {x});
      if Before(jobs, tie, x, v) {
        w := x;
      } else {
        w := v;
        assert tie(x) != tie(v);
      }
      forall k | k in group && k != w
        ensures Before(jobs, tie, w, k)
      {
        assert k == x || k == v || Before(jobs, tie, v, k);
      }
    }
  }

  lemma FirstExists(jobs: Jobs, user: User, tie: JobId -> int, p: JobId) returns (w: JobId)
    requires Injective(tie) && p in jobs && IsPending(jobs[p], user)
    ensures w in jobs && SameGroup(jobs[w], jobs[p]) && RanksFirst(jobs, user, tie, w)
  {
    var group := set k | k in jobs && IsPending(jobs[k], user) && SameGroup(jobs[k], jobs[p]);
    assert p in group;
    w := FirstOfSet(jobs, user, tie, group);
  }

  // ---------------------------------------------------------------- which rows the passes archive, by their columns

  /** `LOWER(platform)` is one of the four primary boards. */
  predicate OnPrimaryBoard(j: Job) {
    j.platform == Val(Ashby) || j.platform == Val(Greenhouse) || j.platform == Val(Lever) || j.platform == Val(Workday)
  }

  /** A pending row is preferred to another of its group: primary beats aggregator, then the newer one wins. */
  predicate Preferred(a: Job, b: Job) {
    (OnPrimaryBoard(a) && !OnPrimaryBoard(b)) || (OnPrimaryBoard(a) == OnPrimaryBoard(b) && a.createdAt > b.createdAt)
  }

  /** Titles and companies agree, NULLs with NULLs. */
  predicate InOneGroup(a: Job, b: Job) { a.user == b.user && a.title == b.title && a.company == b.company }

  /** Titles and companies are there and agree. */
  predicate Twins(a: Job, b: Job) { InOneGroup(a, b) && a.title.Val? && a.company.Val? }

  /** Pass 2 archives a row only while its group keeps a pending row that the row is not preferred to. */
  lemma BestPendingKept(jobs: Jobs, user: User, tie: JobId -> int, now: int, r: JobId) returns (s: JobId)
    requires Injective(tie) && r in jobs && PendingDuplicates(jobs, user, tie, now)[r] != jobs[r]
    ensures var after := PendingDuplicates(jobs, user, tie, now);
            jobs[r].user == user && jobs[r].status == Val(Pending) && jobs[r].score.Null? &&
            after[r] == jobs[r].(status := Val(Archived), archiveReason := Val(DedupPending), updatedAt := now) &&
            s in jobs && s != r && InOneGroup(jobs[s], jobs[r]) && jobs[s].status == Val(Pending) && after[s] == jobs[s] &&
            !Preferred(jobs[r], jobs[s])
  {
    s := FirstExists(jobs, user, tie, r);
  }

  /** A row that is preferred to every other pending row of its group survives pass 2. */
  lemma PreferredKept(jobs: Jobs, user: User, tie: JobId -> int, now: int, r: JobId)
    requires r in jobs
    requires forall k :: k in jobs && k != r && InOneGroup(jobs[k], jobs[r]) && jobs[k].status == Val(Pending) ==> Preferred(jobs[r], jobs[k])
    ensures PendingDuplicates(jobs, user, tie, now)[r] == jobs[r]
  {
  }

  /** And an unscored pending row to which a pending twin is preferred does not. */
  lemma BeatenArchived(jobs: Jobs, user: User, tie: JobId -> int, now: int, r: JobId, k: JobId)
    requires r in jobs && jobs[r].user == user && jobs[r].status == Val(Pending) && jobs[r].score.Null?
    requires k in jobs && jobs[k].status == Val(Pending) && Twins(jobs[k], jobs[r]) && Preferred(jobs[k], jobs[r])
    ensures PendingDuplicates(jobs, user, tie, now)[r] ==
            jobs[r].(status := Val(Archived), archiveReason := Val(DedupPending), updatedAt := now)
  {
  }

  /** The columns of a dismissed twin, which pass 1 archives a pending unscored row for. */
  predicate DismissedTwin(jobs: Jobs, k: JobId, r: JobId)
    requires k in jobs && r in jobs
  {
    k != r && Twins(jobs[k], jobs[r]) && jobs[k].status == Val(Archived) && jobs[k].score.Val? &&
    (jobs[k].stage.Null? || jobs[k].stage == Val(Blank))
  }

  /** Pass 1 archives exactly the tenant's pending unscored rows with a dismissed twin. */
  lemma RepostsExactly(jobs: Jobs, user: User, now: int, r: JobId)
    requires r in jobs
    ensures Reposts(jobs, user, now)[r] ==
            if jobs[r].user == user && jobs[r].status == Val(Pending) && jobs[r].score.Null? && exists k :: k in jobs && DismissedTwin(jobs, k, r)
            then jobs[r].(status := Val(Archived), archiveReason := Val(DedupRepost), updatedAt := now) else jobs[r]
  {
    if k: JobId :| k in jobs && DismissedTwin(jobs, k, r) { assert SameListing(jobs[k], jobs[r]) && Dismissed(jobs[k]); }
    if k: JobId :| k in jobs && k != r && SameListing(jobs[k], jobs[r]) && Dismissed(jobs[k]) { assert DismissedTwin(jobs, k, r); }
  }

  /** A row on a primary board that is not archived, which pass 3 archives an aggregator copy for. */
  predicate LivePrimaryTwin(jobs: Jobs, k: JobId, r: JobId)
    requires k in jobs && r in jobs
  {
    k != r && Twins(jobs[k], jobs[r]) && OnPrimaryBoard(jobs[k]) && jobs[k].status.Val? && jobs[k].status.v != Archived
  }

  /** Pass 3 archives exactly the tenant's pending aggregator rows, scored or not, with a live primary twin. */
  lemma AlternatesExactly(jobs: Jobs, user: User, now: int, r: JobId)
    requires r in jobs
    ensures Alternates(jobs, user, now)[r] ==
            if jobs[r].user == user && jobs[r].status == Val(Pending) && !OnPrimaryBoard(jobs[r]) && exists k :: k in jobs && LivePrimaryTwin(jobs, k, r)
            then jobs[r].(status := Val(Archived), archiveReason := Val(DedupAlternate), updatedAt := now) else jobs[r]
  {
    if k: JobId :| k in jobs && LivePrimaryTwin(jobs, k, r) { assert IsPrimary(jobs[k]) && SameListing(jobs[k], jobs[r]); }
    if k: JobId :| k in jobs && k != r && IsPrimary(jobs[k]) && SameListing(jobs[k], jobs[r]) && NotIn(jobs[k].status, {Archived}) {
      assert LivePrimaryTwin(jobs, k, r);
    }
  }

  /** A row that the whole run archived for a pending copy left one behind, or pass 3 archived that one for a live primary row. */
  predicate BestKept(before: Jobs, after: Jobs, r: JobId)
    requires r in before && before.Keys == after.Keys
  {
    before[r].status == Val(Pending) && after[r].status == Val(Archived) && after[r].archiveReason == Val(DedupPending) ==>
      exists s :: s in before && s != r && InOneGroup(before[s], before[r]) && before[s].status == Val(Pending) &&
                  !Preferred(before[r], before[s]) && (after[s] == before[s] || after[s].archiveReason == Val(DedupAlternate))
  }

  lemma RunKeepsBest(jobs: Jobs, user: User, tie: JobId -> int, now: int, r: JobId)
    requires Injective(tie) && r in jobs
    ensures DedupAll(jobs, user, tie, now).Keys == jobs.Keys && BestKept(jobs, DedupAll(jobs, user, tie, now), r)
  {
    var j1, j2 := Reposts(jobs, user, now), AfterPending(jobs, user, tie, now);
    var j3 := DedupAll(jobs, user, tie, now);
    if jobs[r].status == Val(Pending) && j3[r].status == Val(Archived) && j3[r].archiveReason == Val(DedupPending) {
      assert j1[r] == jobs[r] && j2[r] != j1[r];
      var s := BestPendingKept(j1, user, tie, now, r);
      assert j1[s] == jobs[s] && j2[s] == jobs[s];
      assert InOneGroup(jobs[s], jobs[r]) && !Preferred(jobs[r], jobs[s]) && s != r && jobs[s].status == Val(Pending);
      assert j3[s] == jobs[s] || j3[s].archiveReason == Val(DedupAlternate);
    }
  }

  // ---------------------------------------------------------------- a listing never goes empty

  /** A row that keeps its listing alive after the passes: live, or dismissed before they ran. */
  predicate Survives(before: Job, after: Job) {
    !Is(after.status, Archived) || Dismissed(before)
  }

  /** Every group that held a pending row still has a live row, or a row dismissed before the passes. */
  lemma NeverEmptiesListing(jobs: Jobs, user: User, tie: JobId -> int, now: int, p: JobId) returns (s: JobId)
    requires Injective(tie) && p in jobs && IsPending(jobs[p], user)
    ensures s in jobs && SameGroup(jobs[s], jobs[p])
    ensures Survives(jobs[s], DedupAll(jobs, user, tie, now)[s])
  {
    var j1 := Reposts(jobs, user, now);
    if r: JobId :| r in jobs && SameGroup(jobs[r], jobs[p]) && RepostHit(jobs, user, r) {
      s :| s in jobs && s != r && SameListing(jobs[s], jobs[r]) && Dismissed(jobs[s]);
    } else {
      assert !RepostHit(jobs, user, p);
      var w := FirstExists(j1, user, tie, p);
      var j2 := PendingDuplicates(j1, user, tie, now);
      assert j2[w] == j1[w];
      if AlternateHit(j2, user, w) {
        s :| s in j2 && s != w && IsPrimary(j2[s]) && SameListing(j2[s], j2[w]) && NotIn(j2[s].status, {Archived});
      } else {
        s := w;
      }
    }
  }

  // ---------------------------------------------------------------- the cascade canary

  const CASCADE_REASONS: set<Reason> := {DedupRepost, DedupPending, DedupAlternate, Canonicalized}

  type Group = (Opt<Text>, Opt<Text>)

  function GroupRows(jobs: Jobs, user: User, g: Group): set<JobId> {
    set id | id in jobs && jobs[id].user == user && (jobs[id].title, jobs[id].company) == g
  }

  /** The HAVING clause: all archived, all unscored, one archived by a dedup or canonicalize pass. */
  predicate Cascaded(jobs: Jobs, user: User, g: Group) {
    var rows := GroupRows(jobs, user, g);
    (forall id :: id in rows ==> Is(jobs[id].status, Archived)) &&
    (forall id :: id in rows ==> jobs[id].score.Null?) &&
    (exists id :: id in rows && jobs[id].archiveReason.Val? && jobs[id].archiveReason.v in CASCADE_REASONS)
  }

  function CascadedGroups(jobs: Jobs, user: User): set<Group> {
    set id | id in jobs && jobs[id].user == user && Cascaded(jobs, user, (jobs[id].title, jobs[id].company))
      :: (jobs[id].title, jobs[id].company)
  }

  /** A listing of the tenant that lost its last row to dedup or canonicalization, without any of its rows ever scored. */
  lemma CascadedExactly(jobs: Jobs, user: User, g: Group)
    ensures g in CascadedGroups(jobs, user) <==>
            (exists k :: k in jobs && jobs[k].user == user && jobs[k].title == g.0 && jobs[k].company == g.1 && jobs[k].archiveReason.Val? &&
                         (jobs[k].archiveReason.v == DedupRepost || jobs[k].archiveReason.v == DedupPending ||
                          jobs[k].archiveReason.v == DedupAlternate || jobs[k].archiveReason.v == Canonicalized)) &&
            (forall k :: k in jobs && jobs[k].user == user && jobs[k].title == g.0 && jobs[k].company == g.1 ==>
                         jobs[k].status == Val(Archived) && jobs[k].score.Null?)
  {
    forall k
      ensures k in GroupRows(jobs, user, g) <==> k in jobs && jobs[k].user == user && jobs[k].title == g.0 && jobs[k].company == g.1
    { }
  }

  function CountCascadedArchives(jobs: Jobs, user: User): nat { |CascadedGroups(jobs, user)| }

  /** What CascadedSame needs of every row. */
  lemma DedupedRows(jobs: Jobs, user: User, tie: JobId -> int, now: int)
    ensures var after := DedupAll(jobs, user, tie, now);
            after.Keys == jobs.Keys &&
            forall id :: id in jobs ==>
              after[id].user == jobs[id].user && after[id].title == jobs[id].title && after[id].company == jobs[id].company &&
              (after[id] == jobs[id] || (IsPending(jobs[id], user) && Is(after[id].status, Archived)))
  {
    hide DedupAll;
    DedupAllKeys(jobs, user, tie, now);
    forall id | id in jobs
      ensures DedupStep(jobs[id], DedupAll(jobs, user, tie, now)[id], user, now)
    { DedupFrame(jobs, user, tie, now, id); }
  }

  lemma DedupAllKeys(jobs: Jobs, user: User, tie: JobId -> int, now: int)
    ensures DedupAll(jobs, user, tie, now).Keys == jobs.Keys
  {
  }

  lemma CascadedSame(jobs: Jobs, user: User, tie: JobId -> int, now: int, u: User, g: Group)
    requires Injective(tie)
    ensures Cascaded(DedupAll(jobs, user, tie, now), u, g) <==> Cascaded(jobs, u, g)
  {
    hide DedupAll, DedupStep;
    var after := DedupAll(jobs, user, tie, now);
    DedupedRows(jobs, user, tie, now);
    assert GroupRows(after, u, g) == GroupRows(jobs, u, g);
    if p: JobId :| p in GroupRows(jobs, u, g) && !Is(jobs[p].status, Archived) {
      if Is(after[p].status, Archived) {
        var s := NeverEmptiesListing(jobs, user, tie, now, p);
        assert s in GroupRows(jobs, u, g);
      }
    } else {
      forall id | id in GroupRows(jobs, u, g)
        ensures after[id] == jobs[id]
      { }
    }
  }

  lemma CascadedGroupsWithin(jobs: Jobs, user: User, tie: JobId -> int, now: int, u: User, g: Group)
    requires Injective(tie)
    ensures g in CascadedGroups(DedupAll(jobs, user, tie, now), u) <==> g in CascadedGroups(jobs, u)
  {
    var after := DedupAll(jobs, user, tie, now);
    CascadedSame(jobs, user, tie, now, u, g);
    if id: JobId :| id in jobs && jobs[id].user == u && (jobs[id].title, jobs[id].company) == g {
      DedupFrame(jobs, user, tie, now, id);
      assert (after[id].title, after[id].company) == g;
    } else {
      forall id | id in jobs && after[id].user == u
        ensures (after[id].title, after[id].company) != g
      { DedupFrame(jobs, user, tie, now, id); }
    }
  }

  /** The canary of archivereason.go never fires because of a dedup run, for any tenant. */
  lemma CanaryUnchanged(jobs: Jobs, user: User, tie: JobId -> int, now: int, u: User)
    requires Injective(tie)
    ensures CascadedGroups(DedupAll(jobs, user, tie, now), u) == CascadedGroups(jobs, u)
    ensures CountCascadedArchives(DedupAll(jobs, user, tie, now), u) == CountCascadedArchives(jobs, u)
  {
    forall g: Group
      ensures g in CascadedGroups(DedupAll(jobs, user, tie, now), u) <==> g in CascadedGroups(jobs, u)
    { CascadedGroupsWithin(jobs, user, tie, now, u, g); }
  }

  // ---------------------------------------------------------------- running the passes again

  /**
   * `a` is a scored aggregator copy that pass 3 archives against the primary row `r`,
   * and `r` is the unscored row that its listing keeps.
   */
  predicate Buries(jobs: Jobs, user: User, tie: JobId -> int, r: JobId, a: JobId)
    requires r in jobs && a in jobs
  {
    IsUnscored(jobs[r], user) && IsPrimary(jobs[r]) && RanksFirst(jobs, user, tie, r) &&
    IsPending(jobs[a], user) && jobs[a].score.Val? && (jobs[a].stage.Null? || Is(jobs[a].stage, Blank)) && !IsPrimary(jobs[a]) &&
    SameListing(jobs[a], jobs[r]) &&
    !exists d :: d in jobs && SameListing(jobs[d], jobs[r]) && Dismissed(jobs[d])
  }

  predicate RepeatBuries(jobs: Jobs, user: User, tie: JobId -> int) {
    exists r, a :: r in jobs && a in jobs && Buries(jobs, user, tie, r, a)
  }

  lemma NoPendingHitAgain(jobs: Jobs, user: User, tie: JobId -> int, now: int, id: JobId)
    requires id in jobs
    ensures id in DedupAll(jobs, user, tie, now)
    ensures !PendingHit(DedupAll(jobs, user, tie, now), user, tie, id)
  {
    var j1 := Reposts(jobs, user, now);
    var j3 := DedupAll(jobs, user, tie, now);
    if RanksFirst(j1, user, tie, id) {
      forall o | o in j3 && IsPending(j3[o], user)
        ensures j1[o] == j3[o]
      { }
    } else {
      forall k | k in j3 && k != id && Is(j3[k].status, Pending) && SameListing(j3[k], j3[id])
        ensures !IsUnscored(j3[id], user)
      { assert j1[k] == j3[k]; }
    }
  }

  lemma NoAlternateHitAgain(jobs: Jobs, user: User, tie: JobId -> int, now: int, id: JobId)
    requires id in jobs
    ensures id in DedupAll(jobs, user, tie, now)
    ensures !AlternateHit(DedupAll(jobs, user, tie, now), user, id)
  {
    var j2 := AfterPending(jobs, user, tie, now);
    var j3 := DedupAll(jobs, user, tie, now);
    if !AlternateHit(j2, user, id) {
      forall k | k in j3 && NotIn(j3[k].status, {Archived})
        ensures j2[k] == j3[k]
      { }
    }
  }

  /** A row that first reads as dismissed after the passes was archived by pass 3 and untouched before. */
  lemma DismissedByAlternates(jobs: Jobs, user: User, tie: JobId -> int, now: int, a: JobId)
    requires a in jobs && !Dismissed(jobs[a])
    requires a in DedupAll(jobs, user, tie, now) && Dismissed(DedupAll(jobs, user, tie, now)[a])
    ensures Reposts(jobs, user, now)[a] == jobs[a]
    ensures AfterPending(jobs, user, tie, now)[a] == jobs[a]
    ensures AlternateHit(AfterPending(jobs, user, tie, now), user, a)
  {
  }

  /** What pass 3 spares beside a row that it archives is primary. */
  lemma SparedIsPrimary(jobs: Jobs, user: User, r: JobId, a: JobId)
    requires r in jobs && a in jobs && SameListing(jobs[a], jobs[r]) && IsPending(jobs[r], user)
    requires AlternateHit(jobs, user, a) && !AlternateHit(jobs, user, r)
    ensures IsPrimary(jobs[r])
  {
    var s: JobId :| s in jobs && s != a && IsPrimary(jobs[s]) && SameListing(jobs[s], jobs[a]) && NotIn(jobs[s].status, {Archived});
    assert s == r || !(s != r && IsPrimary(jobs[s]) && SameListing(jobs[s], jobs[r]) && NotIn(jobs[s].status, {Archived})) || IsPrimary(jobs[r]);
  }

  /** In a group that pass 1 leaves alone, ranking first after pass 1 is ranking first before it. */
  lemma FirstUntouched(jobs: Jobs, user: User, tie: JobId -> int, now: int, r: JobId)
    requires r in jobs && Reposts(jobs, user, now)[r] == jobs[r]
    requires forall k :: k in jobs && SameGroup(jobs[k], jobs[r]) ==> Reposts(jobs, user, now)[k] == jobs[k]
    ensures RanksFirst(Reposts(jobs, user, now), user, tie, r) <==> RanksFirst(jobs, user, tie, r)
  {
    var j1 := Reposts(jobs, user, now);
    forall k | k in jobs
      ensures IsPending(j1[k], user) && SameGroup(j1[k], j1[r]) <==> IsPending(jobs[k], user) && SameGroup(jobs[k], jobs[r])
      ensures Before(j1, tie, r, k) == Before(jobs, tie, r, k)
    { }
  }

  /** A listing without a dismissed row is left alone by pass 1. */
  lemma RepostsSpare(jobs: Jobs, user: User, now: int, r: JobId)
    requires r in jobs
    requires !exists d :: d in jobs && SameListing(jobs[d], jobs[r]) && Dismissed(jobs[d])
    ensures forall k :: k in jobs && SameGroup(jobs[k], jobs[r]) ==> Reposts(jobs, user, now)[k] == jobs[k]
  {
    forall k | k in jobs && SameGroup(jobs[k], jobs[r])
      ensures !RepostHit(jobs, user, k)
    {
      forall d | d in jobs && SameListing(jobs[d], jobs[k])
        ensures !Dismissed(jobs[d])
      { assert SameListing(jobs[d], jobs[r]); }
    }
  }

  /** A repost hit in the second run comes from a row that pass 3 of the first run archived. */
  lemma RepostAgainMeansBuries(jobs: Jobs, user: User, tie: JobId -> int, now: int, r: JobId)
    requires r in jobs && r in DedupAll(jobs, user, tie, now) && RepostHit(DedupAll(jobs, user, tie, now), user, r)
    ensures exists a :: a in jobs && Buries(jobs, user, tie, r, a)
  {
    var j1 := Reposts(jobs, user, now);
    var j2 := AfterPending(jobs, user, tie, now);
    var j3 := DedupAll(jobs, user, tie, now);
    var a: JobId :| a in j3 && a != r && SameListing(j3[a], j3[r]) && Dismissed(j3[a]);
    assert !RepostHit(jobs, user, r) && j1[r] == jobs[r] && j2[r] == jobs[r];
    assert SameListing(jobs[a], jobs[r]);
    assert !exists d :: d in jobs && SameListing(jobs[d], jobs[r]) && Dismissed(jobs[d]);
    DismissedByAlternates(jobs, user, tie, now, a);
    SparedIsPrimary(j2, user, r, a);
    RepostsSpare(jobs, user, now, r);
    FirstUntouched(jobs, user, tie, now, r);
    assert !PendingHit(j1, user, tie, r);
    assert Buries(jobs, user, tie, r, a);
  }

  lemma BuriesMeansRepostAgain(jobs: Jobs, user: User, tie: JobId -> int, now: int, r: JobId, a: JobId)
    requires r in jobs && a in jobs && Buries(jobs, user, tie, r, a)
    ensures r in DedupAll(jobs, user, tie, now) && RepostHit(DedupAll(jobs, user, tie, now), user, r)
    ensures DedupAll(jobs, user, tie, now)[r] == jobs[r]
    ensures DedupAll(jobs, user, tie, now)[a] == AutoArchive(jobs[a], DedupAlternate, now)
  {
    var j1 := Reposts(jobs, user, now);
    var j2 := AfterPending(jobs, user, tie, now);
    RepostsSpare(jobs, user, now, r);
    FirstUntouched(jobs, user, tie, now, r);
    assert j2[r] == jobs[r] && j2[a] == jobs[a];
    assert AlternateHit(j2, user, a);
    assert !AlternateHit(j2, user, r);
    var j3 := DedupAll(jobs, user, tie, now);
    assert j3[r] == jobs[r] && SameListing(j3[a], j3[r]) && Dismissed(j3[a]);
  }

  /** With a stable order of equal rows, a second run archives nothing exactly when no row is set up to be buried. */
  lemma SecondRunIdle(jobs: Jobs, user: User, tie: JobId -> int, now: int, later: int)
    ensures DedupAll(DedupAll(jobs, user, tie, now), user, tie, later) == DedupAll(jobs, user, tie, now)
            <==> !RepeatBuries(jobs, user, tie)
  {
    var j3 := DedupAll(jobs, user, tie, now);
    if r: JobId, a: JobId :| r in jobs && a in jobs && Buries(jobs, user, tie, r, a) {
      BuriesMeansRepostAgain(jobs, user, tie, now, r, a);
      assert Is(Reposts(j3, user, later)[r].status, Archived);
      assert DedupAll(j3, user, tie, later)[r] != j3[r];
    } else {
      forall id | id in j3
        ensures !RepostHit(j3, user, id) && !PendingHit(j3, user, tie, id) && !AlternateHit(j3, user, id)
      {
        if RepostHit(j3, user, id) { RepostAgainMeansBuries(jobs, user, tie, now, id); }
        NoPendingHitAgain(jobs, user, tie, now, id);
        NoAlternateHitAgain(jobs, user, tie, now, id);
      }
      assert Reposts(j3, user, later) == j3;
      assert PendingDuplicates(j3, user, tie, later) == j3;
      assert Alternates(j3, user, later) == j3;
    }
  }

  /** Two runs always reach a fixed point: the third run archives nothing. */
  lemma ThirdRunIdle(jobs: Jobs, user: User, tie: JobId -> int, t1: int, t2: int, t3: int)
    ensures var twice := DedupAll(DedupAll(jobs, user, tie, t1), user, tie, t2);
            DedupAll(twice, user, tie, t3) == twice
  {
    var once := DedupAll(jobs, user, tie, t1);
    forall r, a | r in once && a in once
      ensures !Buries(once, user, tie, r, a)
    { NoAlternateHitAgain(jobs, user, tie, t1, a); }
    SecondRunIdle(once, user, tie, t2, t3);
  }

  // ---------------------------------------------------------------- the two ways in which a second run does archive

  /** A pending row of listing (1, 1), made from the columns that the passes read. */
  function Listing(platform: Word, createdAt: int, score: Opt<int>): Job {
    Job(1, Null, Val(1), Val(1), Null, Val(platform), Null, Null, Null, createdAt, createdAt, Null,
        Val(Pending), Null, score, Null, Null, Null, Null, Null, Null, Null, Null, Null,
        Extra(Null, Null, Null, Null, Null, Null, Null, Null))
  }

  /** When those two rows are the whole listing, two runs leave it without a live row, and the canary stays silent. */
  lemma BuriedListing(jobs: Jobs, user: User, tie: JobId -> int, t1: int, t2: int, r: JobId, a: JobId)
    requires r in jobs && a in jobs && Buries(jobs, user, tie, r, a)
    requires forall k :: k in jobs && SameGroup(jobs[k], jobs[r]) ==> k == r || k == a
    ensures var once := DedupAll(jobs, user, tie, t1);
            var twice := DedupAll(once, user, tie, t2);
            Is(once[r].status, Pending) &&
            (forall k :: k in twice && SameGroup(twice[k], jobs[r]) ==> Is(twice[k].status, Archived)) &&
            !Cascaded(twice, user, (jobs[r].title, jobs[r].company))
  {
    hide DedupAll, DedupStep, Buries;
    var once := DedupAll(jobs, user, tie, t1);
    var twice := DedupAll(once, user, tie, t2);
    BuriesMeansRepostAgain(jobs, user, tie, t1, r, a);
    BuriedTwice(jobs, user, tie, r, a);
    DedupedRows(jobs, user, tie, t1);
    DedupedRows(once, user, tie, t2);
    RepostStays(once, user, tie, t2, r);
    assert a in GroupRows(twice, user, (jobs[r].title, jobs[r].company));
  }

  lemma BuriedTwice(jobs: Jobs, user: User, tie: JobId -> int, r: JobId, a: JobId)
    requires r in jobs && a in jobs && Buries(jobs, user, tie, r, a)
    ensures SameGroup(jobs[a], jobs[r]) && jobs[a].user == jobs[r].user == user && jobs[a].score.Val? && Is(jobs[r].status, Pending)
  {
  }

  lemma RepostStays(jobs: Jobs, user: User, tie: JobId -> int, now: int, r: JobId)
    requires r in jobs && RepostHit(jobs, user, r)
    ensures r in DedupAll(jobs, user, tie, now) && Is(DedupAll(jobs, user, tie, now)[r].status, Archived)
  {
  }

  const TWO_COPIES: Jobs := map[1 := Listing(Greenhouse, 0, Null), 2 := Listing(Other(0), 0, Val(8))]

  lemma SecondRunBuriesPrimary()
    ensures var tie: JobId -> int := id => id;
            var once := DedupAll(TWO_COPIES, 1, tie, 10);
            var twice := DedupAll(once, 1, tie, 20);
            Is(once[1].status, Pending) && Is(twice[1].status, Archived) && Is(twice[2].status, Archived) &&
            !Cascaded(twice, 1, (Val(1), Val(1)))
  {
    var tie: JobId -> int := id => id;
    assert Buries(TWO_COPIES, 1, tie, 1, 2);
    BuriedListing(TWO_COPIES, 1, tie, 10, 20, 1, 2);
    var once := DedupAll(TWO_COPIES, 1, tie, 10);
    DedupFrame(TWO_COPIES, 1, tie, 10, 1);
    DedupFrame(TWO_COPIES, 1, tie, 10, 2);
    DedupFrame(once, 1, tie, 20, 1);
    DedupFrame(once, 1, tie, 20, 2);
  }

  /** An engine that orders two equal rows differently on the second run archives the row that the first run kept. */
  lemma UnstableOrderBuries(jobs: Jobs, user: User, up: JobId -> int, down: JobId -> int, t1: int, t2: int, r: JobId, s: JobId)
    requires r in jobs && s in jobs && r != s && SameListing(jobs[s], jobs[r])
    requires forall k :: k in jobs && SameGroup(jobs[k], jobs[r]) ==> k == r || k == s
    requires IsUnscored(jobs[r], user) && IsPrimary(jobs[r])
    requires IsPending(jobs[s], user) && jobs[s].score.Val? && IsPrimary(jobs[s]) && jobs[s].createdAt == jobs[r].createdAt
    requires up(r) < up(s) && down(s) < down(r)
    ensures var once := DedupAll(jobs, user, up, t1);
            once[r] == jobs[r] && once[s] == jobs[s] && Is(DedupAll(once, user, down, t2)[r].status, Archived)
  {
    RepostsSpare(jobs, user, t1, r);
    FirstUntouched(jobs, user, up, t1, r);
    assert RanksFirst(jobs, user, up, r);
    var once := DedupAll(jobs, user, up, t1);
    assert once[r] == jobs[r] && once[s] == jobs[s];
    var o1 := Reposts(once, user, t2);
    assert o1[s] == once[s] && SameGroup(o1[s], o1[r]) && SameListing(o1[s], o1[r]);
    assert !Before(o1, down, r, s);
    assert !RanksFirst(o1, user, down, r);
  }

  const TIED_COPIES: Jobs := map[1 := Listing(Greenhouse, 0, Null), 2 := Listing(Greenhouse, 0, Val(8))]

  lemma UnstableOrderExample()
    ensures var up: JobId -> int := id => id;
            var down: JobId -> int := id => -id;
            var once := DedupAll(TIED_COPIES, 1, up, 10);
            !RepeatBuries(TIED_COPIES, 1, up) && Is(once[1].status, Pending) && Is(DedupAll(once, 1, down, 20)[1].status, Archived)
  {
    hide DedupAll;
    var up: JobId -> int := id => id;
    var down: JobId -> int := id => -id;
    UnstableOrderBuries(TIED_COPIES, 1, up, down, 10, 20, 1, 2);
  }
}
