/** The dashboard counters: GlobalStats (joblist.go) in SQL's three-valued logic, and computeStatsFromJobs (listview.go) in Go. */
module Counters {
  import opened Sql
  import opened Tables
  import A = Actions
  import Lifecycle
  import N = Counting

  datatype Stats = Stats(total: nat, notApplied: nat, applied: nat, interviewing: nat, offers: nat,
                         rejected: nat, closed: nat, archived: nat, ghosted: nat) {
    function Plus(that: Stats): Stats {
      Stats(total + that.total, notApplied + that.notApplied, applied + that.applied, interviewing + that.interviewing,
            offers + that.offers, rejected + that.rejected, closed + that.closed, archived + that.archived, ghosted + that.ghosted)
    }
  }

  const NONE := Stats(0, 0, 0, 0, 0, 0, 0, 0, 0)

  /** The sum of the first `n`. */
  function SumTo(xs: seq<Stats>, n: nat): Stats
    requires n <= |xs|
  {
    if n == 0 then NONE else SumTo(xs, n - 1).Plus(xs[n - 1])
  }

  function Total(xs: seq<Stats>): Stats { SumTo(xs, |xs|) }

  lemma SumsAdd(x: Stats, y: Stats, z: Stats, dx: Stats, dy: Stats, dz: Stats)
    requires x == y.Plus(z) && dx == dy.Plus(dz)
    ensures x.Plus(dx) == y.Plus(dy).Plus(z.Plus(dz))
  {
  }

  lemma Fieldwise(a: Stats, b: Stats, c: Stats)
    requires a.total == b.total + c.total && a.notApplied == b.notApplied + c.notApplied && a.applied == b.applied + c.applied
    requires a.interviewing == b.interviewing + c.interviewing && a.offers == b.offers + c.offers && a.rejected == b.rejected + c.rejected
    requires a.closed == b.closed + c.closed && a.archived == b.archived + c.archived && a.ghosted == b.ghosted + c.ghosted
    ensures a == b.Plus(c)
  {
  }

  lemma {:induction false} TotalsAdd(xs: seq<Stats>, ys: seq<Stats>, zs: seq<Stats>, n: nat)
    requires n <= |xs| == |ys| == |zs| && forall i :: 0 <= i < |xs| ==> xs[i] == ys[i].Plus(zs[i])
    ensures SumTo(xs, n) == SumTo(ys, n).Plus(SumTo(zs, n))
  {
    if n > 0 {
      TotalsAdd(xs, ys, zs, n - 1);
      SumsAdd(SumTo(xs, n - 1), SumTo(ys, n - 1), SumTo(zs, n - 1), xs[n - 1], ys[n - 1], zs[n - 1]);
    } else {
      Fieldwise(SumTo(xs, n), SumTo(ys, n), SumTo(zs, n));
    }
  }

  // ---------------------------------------------------------------- in SQL

  /** The columns that the counters read. */
  datatype Row = Row(status: Opt<Word>, stage: Opt<Word>)

  const HIDDEN: set<Word> := {Archived, Rejected, Closed, Ghosted}
  const SETTLED: set<Word> := {Applied, Responded, Archived, Closed, Rejected, Ghosted}
  const ENDED: set<Word> := {Closed, Rejected, Ghosted}

  /** The nine CASE expressions on one row. */
  function SqlRow(j: Row): Stats {
    Stats(CaseWhen(TriIn(j.status, HIDDEN).Not()),
          CaseWhen(TriIn(j.status, SETTLED).Not()
                     .And(TriOf(Coalesce(j.stage, Blank) !in ENDED))),
          CaseWhen(TriIn(j.status, PIPELINE).And(TriEq(j.stage, Closed).Not())),
          CaseWhen(TriIn(j.stage, TRACKED)),
          CaseWhen(TriEq(j.stage, Offer)),
          CaseWhen(TriEq(j.stage, Rejected)),
          CaseWhen(TriEq(j.stage, Closed)),
          CaseWhen(TriEq(j.status, Archived)),
          CaseWhen(TriEq(j.stage, Ghosted)))
  }

  /** The SUMs over the tenant's rows. */
  function GlobalStats(rows: seq<Row>): Stats { Total(SqlRows(rows)) }

  function SqlRows(rows: seq<Row>): seq<Stats> { seq(|rows|, i requires 0 <= i < |rows| => SqlRow(rows[i])) }

  // ---------------------------------------------------------------- in Go

  /** The columns that StatsRows scans; a NULL arrives as the empty string. */
  datatype ListedJob = ListedJob(status: Word, stage: Word)

  function Listed(j: Row): ListedJob { ListedJob(Coalesce(j.status, Blank), Coalesce(j.stage, Blank)) }

  function StatsRows(rows: seq<Row>): seq<ListedJob> {
    seq(|rows|, i requires 0 <= i < |rows| => Listed(rows[i]))
  }

  function One(b: bool): nat { if b then 1 else 0 }

  // Where a NULL makes the two counts part ways.
  predicate NullStatus(j: Row) { j.status.Null? }
  predicate NullStatusOpenStage(j: Row) { j.status.Null? && Coalesce(j.stage, Blank) !in ENDED }
  predicate PipelineNullStage(j: Row) { j.status.Val? && j.status.v in PIPELINE && j.stage.Null? }

  function RowSurplus(j: Row): Stats {
    NONE.(total := One(NullStatus(j)), notApplied := One(NullStatusOpenStage(j)), applied := One(PipelineNullStage(j)))
  }

  /** What the Go loop counts above the SQL sums. */
  function Surplus(rows: seq<Row>): Stats { Total(Surpluses(rows)) }

  function Surpluses(rows: seq<Row>): seq<Stats> { seq(|rows|, i requires 0 <= i < |rows| => RowSurplus(rows[i])) }

  /** The pipeline rows without a stage. */
  function MissingStages(rows: seq<Row>): nat {
    if rows == [] then 0 else MissingStages(rows[..|rows| - 1]) + One(PipelineNullStage(rows[|rows| - 1]))
  }

  /** What the loop adds for one row. */
  function GoRow(j: ListedJob): Stats {
    Stats(One(j.status !in HIDDEN),
          One(j.status !in SETTLED && j.stage !in ENDED),
          One(j.status in PIPELINE && j.stage != Closed),
          One(j.stage in TRACKED), One(j.stage == Offer), One(j.stage == Rejected), One(j.stage == Closed),
          One(j.status == Archived), One(j.stage == Ghosted))
  }

  function GoStats(jobs: seq<ListedJob>): Stats { Total(GoRows(jobs)) }

  function GoRows(jobs: seq<ListedJob>): seq<Stats> { seq(|jobs|, i requires 0 <= i < |jobs| => GoRow(jobs[i])) }

  method CountStages(stage: Word, s: Stats) returns (r: Stats)
    ensures r == s.(interviewing := s.interviewing + One(stage in TRACKED), offers := s.offers + One(stage == Offer),
                    rejected := s.rejected + One(stage == Rejected), closed := s.closed + One(stage == Closed),
                    ghosted := s.ghosted + One(stage == Ghosted))
  {
    r := s;
    if stage in TRACKED {
      r := r.(interviewing := r.interviewing + 1);
    }
    match stage {
      case Offer => r := r.(offers := r.offers + 1);
      case Rejected => r := r.(rejected := r.rejected + 1);
      case Closed => r := r.(closed := r.closed + 1);
      case Ghosted => r := r.(ghosted := r.ghosted + 1);
      case _ =>
    }
  }

  /** The body of the loop. */
  method CountRow(j: ListedJob, s: Stats) returns (r: Stats)
    ensures r == s.Plus(GoRow(j))
  {
    var status, stage := j.status, j.stage;
    r := s;
    if status !in HIDDEN {
      r := r.(total := r.total + 1);
    }
    if status !in SETTLED && stage !in ENDED {
      r := r.(notApplied := r.notApplied + 1);
    }
    if status in PIPELINE && stage != Closed {
      r := r.(applied := r.applied + 1);
    }
    r := CountStages(stage, r);
    if status == Archived {
      r := r.(archived := r.archived + 1);
    }
  }

  method ComputeStatsFromJobs(jobs: seq<ListedJob>) returns (s: Stats)
    ensures s == GoStats(jobs)
  {
    s := NONE;
    ghost var added := GoRows(jobs);
    for i := 0 to |jobs|
      invariant s == SumTo(added, i)
    {
      s := CountRow(jobs[i], s);
    }
  }

  // ---------------------------------------------------------------- where they agree

  function OnlyApplied(n: nat): Stats { NONE.(applied := n) }

  lemma PlusOnlyApplied(s: Stats, n: nat)
    ensures s.Plus(OnlyApplied(n)) == s.(applied := s.applied + n)
    ensures s.Plus(OnlyApplied(n)) == s <==> n == 0
  {
  }

  lemma OnlyAppliedAdds(m: nat, n: nat)
    ensures OnlyApplied(m).Plus(OnlyApplied(n)) == OnlyApplied(m + n)
  {
  }

  lemma {:induction false} SumOfPrefix(xs: seq<Stats>, ys: seq<Stats>, n: nat)
    requires n <= |xs| && n <= |ys| && forall i :: 0 <= i < n ==> xs[i] == ys[i]
    ensures SumTo(xs, n) == SumTo(ys, n)
  {
    if n > 0 { SumOfPrefix(xs, ys, n - 1); }
  }

  lemma {:induction false} SurplusIsMissingStages(rows: seq<Row>)
    requires forall i :: 0 <= i < |rows| ==> rows[i].status.Val?
    ensures Surplus(rows) == OnlyApplied(MissingStages(rows))
  {
    if rows != [] {
      var n := |rows| - 1;
      SurplusIsMissingStages(rows[..n]);
      SumOfPrefix(Surpluses(rows), Surpluses(rows[..n]), n);
      assert RowSurplus(rows[n]) == OnlyApplied(One(PipelineNullStage(rows[n])));
      OnlyAppliedAdds(MissingStages(rows[..n]), One(PipelineNullStage(rows[n])));
    }
  }

  lemma {:induction false} NoMissingStages(rows: seq<Row>)
    ensures MissingStages(rows) == 0 <==> forall i :: 0 <= i < |rows| ==> !PipelineNullStage(rows[i])
  {
    if rows != [] {
      var n := |rows| - 1;
      NoMissingStages(rows[..n]);
      assert forall i :: 0 <= i < n ==> rows[..n][i] == rows[i];
    }
  }

  lemma StatusBucketsDiffer(j: Row)
    ensures GoRow(Listed(j)).total == SqlRow(j).total + RowSurplus(j).total
    ensures GoRow(Listed(j)).notApplied == SqlRow(j).notApplied + RowSurplus(j).notApplied
  {
  }

  lemma AppliedBucketDiffers(j: Row)
    ensures GoRow(Listed(j)).applied == SqlRow(j).applied + RowSurplus(j).applied
    ensures GoRow(Listed(j)).archived == SqlRow(j).archived + RowSurplus(j).archived
  {
  }

  lemma StageBucketsSame(j: Row)
    ensures var go, sql := GoRow(Listed(j)), SqlRow(j);
            go.interviewing == sql.interviewing && go.offers == sql.offers && go.rejected == sql.rejected &&
            go.closed == sql.closed && go.ghosted == sql.ghosted
  {
  }

  lemma RowsDiffer(j: Row)
    ensures GoRow(Listed(j)) == SqlRow(j).Plus(RowSurplus(j))
  {
    StatusBucketsDiffer(j);
    AppliedBucketDiffers(j);
    StageBucketsSame(j);
    Fieldwise(GoRow(Listed(j)), SqlRow(j), RowSurplus(j));
  }

  /**
   * The loop on the rows of StatsRows agrees with GlobalStats on six buckets. It counts a NULL status as live and not
   * applied, and a pipeline row with a NULL stage as applied, which SQL does not.
   */
  lemma CountersDiffer(rows: seq<Row>)
    ensures GoStats(StatsRows(rows)) == GlobalStats(rows).Plus(Surplus(rows))
  {
    forall i | 0 <= i < |rows|
      ensures GoRows(StatsRows(rows))[i] == SqlRows(rows)[i].Plus(Surpluses(rows)[i])
    { RowsDiffer(rows[i]); }
    var go, sql, surplus := GoRows(StatsRows(rows)), SqlRows(rows), Surpluses(rows);
    TotalsAdd(go, sql, surplus, |rows|);
  }

  /**
   * For rows with a status the two agree on eight buckets and differ on `applied` by exactly the pipeline rows
   * without a stage; they agree on everything exactly when there is no such row.
   */
  lemma DifferOnApplied(rows: seq<Row>)
    requires forall i :: 0 <= i < |rows| ==> rows[i].status.Val?
    ensures var sql := GlobalStats(rows);
            GoStats(StatsRows(rows)) == sql.(applied := sql.applied + MissingStages(rows))
    ensures GoStats(StatsRows(rows)) == GlobalStats(rows) <==> forall i :: 0 <= i < |rows| ==> !PipelineNullStage(rows[i])
  {
    CountersDiffer(rows);
    SurplusIsMissingStages(rows);
    NoMissingStages(rows);
    PlusOnlyApplied(GlobalStats(rows), MissingStages(rows));
  }

  predicate AreRows(jobs: Jobs, user: User, ids: seq<JobId>, rows: seq<Row>) {
    |ids| == |rows| &&
    forall i :: 0 <= i < |ids| ==> Owns(jobs, user, ids[i]) && rows[i] == Row(jobs[ids[i]].status, jobs[ids[i]].stage)
  }

  /** The rows of one tenant, in any order. */
  ghost predicate IsScan(jobs: Jobs, user: User, rows: seq<Row>) {
    exists ids: seq<JobId> :: AreRows(jobs, user, ids, rows)
  }

  /** In every reachable state both counters show the same nine numbers. */
  lemma ReachableCountersAgree(acts: seq<A.Action>, user: User, rows: seq<Row>)
    requires IsScan(A.Run(A.START, acts).db.jobs, user, rows)
    ensures GoStats(StatsRows(rows)) == GlobalStats(rows)
  {
    Lifecycle.ReachableRowsGood(acts);
    var jobs := A.Run(A.START, acts).db.jobs;
    var ids: seq<JobId> :| AreRows(jobs, user, ids, rows);
    forall i | 0 <= i < |rows|
      ensures rows[i].status.Val? && !PipelineNullStage(rows[i])
    { assert Lifecycle.GoodLife(A.LifeOf(jobs[ids[i]])); }
    DifferOnApplied(rows);
  }

  // ---------------------------------------------------------------- what the buckets say

  predicate Nested(s: Stats, rows: nat) {
    s.notApplied <= s.total && s.offers <= s.interviewing &&
    s.interviewing + s.rejected + s.closed + s.ghosted <= rows && s.total + s.archived <= rows
  }

  lemma RowNested(j: Row)
    ensures Nested(SqlRow(j), 1)
  {
  }

  lemma {:induction false} TotalNested(xs: seq<Stats>, n: nat)
    requires n <= |xs| && forall i :: 0 <= i < |xs| ==> Nested(xs[i], 1)
    ensures Nested(SumTo(xs, n), n)
  {
    if n > 0 { TotalNested(xs, n - 1); }
  }

  /** What is not applied is live, an offer is interviewing, and no row is counted in two stages, nor live and archived. */
  lemma BucketsNest(rows: seq<Row>)
    ensures Nested(GlobalStats(rows), |rows|)
  {
    forall i | 0 <= i < |rows|
      ensures Nested(SqlRows(rows)[i], 1)
    { RowNested(rows[i]); }
    TotalNested(SqlRows(rows), |rows|);
  }

  // ---------------------------------------------------------------- each bucket is a number of rows

  datatype Bucket = LiveRows | UnappliedRows | AppliedRows | InterviewRows | OfferRows | RejectedRows | ClosedRows | ArchivedRows | GhostedRows

  function NumberIn(s: Stats, b: Bucket): nat {
    match b
    case LiveRows => s.total case UnappliedRows => s.notApplied case AppliedRows => s.applied
    case InterviewRows => s.interviewing case OfferRows => s.offers case RejectedRows => s.rejected
    case ClosedRows => s.closed case ArchivedRows => s.archived case GhostedRows => s.ghosted
  }

  /** The rows that GlobalStats counts: a comparison with NULL counts nothing. */
  predicate SqlCounts(j: Row, b: Bucket) {
    match b
    case LiveRows => j.status.Val? && j.status.v != Archived && j.status.v != Rejected && j.status.v != Closed && j.status.v != Ghosted
    case UnappliedRows =>
      j.status.Val? && j.status.v != Applied && j.status.v != Responded && j.status.v != Archived && j.status.v != Closed &&
      j.status.v != Rejected && j.status.v != Ghosted && j.stage != Val(Closed) && j.stage != Val(Rejected) && j.stage != Val(Ghosted)
    case AppliedRows => (j.status == Val(Applied) || j.status == Val(Responded)) && j.stage.Val? && j.stage.v != Closed
    case InterviewRows => j.stage == Val(PhoneScreen) || j.stage == Val(Interview) || j.stage == Val(Onsite) || j.stage == Val(Offer)
    case OfferRows => j.stage == Val(Offer)
    case RejectedRows => j.stage == Val(Rejected)
    case ClosedRows => j.stage == Val(Closed)
    case ArchivedRows => j.status == Val(Archived)
    case GhostedRows => j.stage == Val(Ghosted)
  }

  /** The jobs that the loop counts: a NULL is the empty text and differs from every word. */
  predicate GoCounts(j: ListedJob, b: Bucket) {
    match b
    case LiveRows => j.status != Archived && j.status != Rejected && j.status != Closed && j.status != Ghosted
    case UnappliedRows =>
      j.status != Applied && j.status != Responded && j.status != Archived && j.status != Closed && j.status != Rejected &&
      j.status != Ghosted && j.stage != Closed && j.stage != Rejected && j.stage != Ghosted
    case AppliedRows => (j.status == Applied || j.status == Responded) && j.stage != Closed
    case InterviewRows => j.stage == PhoneScreen || j.stage == Interview || j.stage == Onsite || j.stage == Offer
    case OfferRows => j.stage == Offer
    case RejectedRows => j.stage == Rejected
    case ClosedRows => j.stage == Closed
    case ArchivedRows => j.status == Archived
    case GhostedRows => j.stage == Ghosted
  }

  lemma PlusIn(x: Stats, y: Stats, b: Bucket)
    ensures NumberIn(x.Plus(y), b) == NumberIn(x, b) + NumberIn(y, b)
  {
  }

  lemma SqlRowCounts(j: Row, b: Bucket)
    ensures NumberIn(SqlRow(j), b) == if SqlCounts(j, b) then 1 else 0
  {
  }

  lemma GoRowCounts(j: ListedJob, b: Bucket)
    ensures NumberIn(GoRow(j), b) == if GoCounts(j, b) then 1 else 0
  {
  }

  lemma {:induction false} SumCounts(xs: seq<Stats>, n: nat, b: Bucket, p: nat -> bool)
    requires n <= |xs| && forall i: nat :: i < n ==> NumberIn(xs[i], b) == if p(i) then 1 else 0
    ensures NumberIn(SumTo(xs, n), b) == N.HowMany(n, p)
  {
    if n > 0 {
      SumCounts(xs, n - 1, b, p);
      PlusIn(SumTo(xs, n - 1), xs[n - 1], b);
      N.OneMore(n - 1, p);
    } else {
      assert N.Hits(0, p) == {};
    }
  }

  /** Each of the nine sums of GlobalStats is the number of rows in its bucket. */
  lemma GlobalStatsCounts(rows: seq<Row>, b: Bucket)
    ensures NumberIn(GlobalStats(rows), b) == |set i: nat | i < |rows| && SqlCounts(rows[i], b)|
  {
    hide SqlRow, SqlCounts, NumberIn;
    var p := (i: nat) => i < |rows| && SqlCounts(rows[i], b);
    forall i: nat | i < |rows| ensures NumberIn(SqlRows(rows)[i], b) == if p(i) then 1 else 0 { SqlRowCounts(rows[i], b); }
    SumCounts(SqlRows(rows), |rows|, b, p);
    assert N.Hits(|rows|, p) == set i: nat | i < |rows| && SqlCounts(rows[i], b);
  }

  /** And each of the nine counters of the loop the number of jobs in its bucket. */
  lemma GoStatsCounts(jobs: seq<ListedJob>, b: Bucket)
    ensures NumberIn(GoStats(jobs), b) == |set i: nat | i < |jobs| && GoCounts(jobs[i], b)|
  {
    hide GoRow, GoCounts, NumberIn;
    var p := (i: nat) => i < |jobs| && GoCounts(jobs[i], b);
    forall i: nat | i < |jobs| ensures NumberIn(GoRows(jobs)[i], b) == if p(i) then 1 else 0 { GoRowCounts(jobs[i], b); }
    SumCounts(GoRows(jobs), |jobs|, b, p);
    assert N.Hits(|jobs|, p) == set i: nat | i < |jobs| && GoCounts(jobs[i], b);
  }
}
