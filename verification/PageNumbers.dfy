/** The figures of the analytics page and of its audit as numbers of jobs, told by the columns of the jobs, events and reached rows. */
module PageNumbers {
  import opened Sql
  import opened Tables
  import opened Analytics
  import N = Counting
  import R = Reached
  import A = AnalyticsAudit

  // ---------------------------------------------------------------- who applied, who was rejected

  predicate AppliedEvent(e: AnalyticsEvent, id: JobId) { e.kind == StageChange && e.to == Applied && e.job == id }

  predicate Tracked(stage: Word) { stage == PhoneScreen || stage == Interview || stage == Onsite || stage == Offer }

  predicate Dateless(j: AnalyticsJob) { j.appliedAt.Null? || j.appliedAt.v == EMPTY }

  /** A listed job with an applied_at or an applied event, or any job with a reached row. */
  predicate DidApply(jobs: seq<AnalyticsJob>, events: seq<AnalyticsEvent>, rows: seq<R.ReachedRow>, id: JobId) {
    (exists j :: j in jobs && j.id == id && (!Dateless(j) || exists e :: e in events && AppliedEvent(e, id))) ||
    (exists r :: r in rows && r.job == id && Tracked(r.stage))
  }

  lemma AppliedIdsAre(jobs: seq<AnalyticsJob>, events: seq<AnalyticsEvent>, rows: seq<R.ReachedRow>, id: JobId)
    ensures id in AppliedIds(jobs, events, rows) <==> DidApply(jobs, events, rows, id)
  {
    if e :| e in events && IsAppliedEvent(e, JobIds(jobs)) && e.job == id { assert AppliedEvent(e, id); }
    if j :| j in jobs && j.id == id && !Dateless(j) { assert HasAppliedAt(j); }
    if e :| e in events && AppliedEvent(e, id) && id in JobIds(jobs) { assert IsAppliedEvent(e, JobIds(jobs)); }
    if r :| r in rows && r.job == id && r.stage in TRACKED { assert Tracked(r.stage); }
    if r :| r in rows && r.job == id && Tracked(r.stage) { assert r.stage in TRACKED; }
  }

  /** An applied job with a stage change to `rejected`, or a listed one whose stage it is. */
  predicate WasRejected(jobs: seq<AnalyticsJob>, events: seq<AnalyticsEvent>, rows: seq<R.ReachedRow>, id: JobId) {
    DidApply(jobs, events, rows, id) &&
    ((exists e :: e in events && e.kind == StageChange && e.to == Rejected && e.job == id) ||
     (exists j :: j in jobs && j.id == id && j.stage == Rejected))
  }

  lemma {:induction false} CohortHas(jobs: seq<AnalyticsJob>, ids: set<JobId>, first: map<JobId, Text>, id: JobId, stage: Word)
    ensures (exists j :: j in Cohort(jobs, ids, first) && j.id == id && j.stage == stage) <==>
            id in ids && exists j :: j in jobs && j.id == id && j.stage == stage
  {
    if jobs != [] {
      var n := |jobs| - 1;
      CohortHas(jobs[..n], ids, first, id, stage);
      var d := Dated(jobs[n], first);
      assert d.id == jobs[n].id && d.stage == jobs[n].stage;
      assert forall j :: j in jobs <==> j in jobs[..n] || j == jobs[n];
      assert forall j :: j in Cohort(jobs, ids, first) <==> j in Cohort(jobs[..n], ids, first) || (jobs[n].id in ids && j == d);
    }
  }

  lemma RejectedIdsAre(jobs: seq<AnalyticsJob>, events: seq<AnalyticsEvent>, rows: seq<R.ReachedRow>, id: JobId)
    ensures id in CohortsOf(jobs, events, rows).rejected <==> WasRejected(jobs, events, rows, id)
  {
    hide DidApply, AppliedIds, FirstApplied, Cohort;
    var ids := AppliedIds(jobs, events, rows);
    AppliedIdsAre(jobs, events, rows, id);
    CohortHas(jobs, ids, FirstApplied(JobIds(jobs), events), id, Rejected);
    if e :| e in events && e.kind == StageChange && e.to == Rejected && e.job == id && id in ids { assert IsRejectedEvent(e, ids); }
  }

  // ---------------------------------------------------------------- counts over the list

  lemma {:induction false} CohortCounts(jobs: seq<AnalyticsJob>, ids: set<JobId>, first: map<JobId, Text>, n: nat)
    requires n <= |jobs|
    ensures |Cohort(jobs[..n], ids, first)| == N.HowMany(n, (i: nat) => i < |jobs| && jobs[i].id in ids)
  {
    var p := (i: nat) => i < |jobs| && jobs[i].id in ids;
    if n > 0 {
      CohortCounts(jobs, ids, first, n - 1);
      N.OneMore(n - 1, p);
      assert jobs[..n][..n - 1] == jobs[..n - 1];
    } else {
      assert N.Hits(0, p) == {};
    }
  }

  lemma {:induction false} ActiveCounts(jobs: seq<AnalyticsJob>, n: nat)
    requires n <= |jobs|
    ensures CountActive(jobs[..n]) == N.HowMany(n, (i: nat) => i < |jobs| && IsActive(jobs[i]))
  {
    var p := (i: nat) => i < |jobs| && IsActive(jobs[i]);
    if n > 0 {
      ActiveCounts(jobs, n - 1);
      N.OneMore(n - 1, p);
      assert jobs[..n][..n - 1] == jobs[..n - 1];
    } else {
      assert N.Hits(0, p) == {};
    }
  }

  lemma CohortNext(jobs: seq<AnalyticsJob>, ids: set<JobId>, first: map<JobId, Text>, n: nat)
    requires n < |jobs|
    ensures Cohort(jobs[..n + 1], ids, first) == Cohort(jobs[..n], ids, first) + if jobs[n].id in ids then [Dated(jobs[n], first)] else []
  {
    hide Dated;
    assert jobs[..n + 1][..n] == jobs[..n];
  }

  lemma StaleAppend(xs: seq<AnalyticsJob>, x: AnalyticsJob, responded: set<JobId>, now: int, parse: Parse)
    ensures CountStale(xs + [x], responded, now, parse) == CountStale(xs, responded, now, parse) + if IsStale(x, responded, now, parse) then 1 else 0
    ensures xs + [] == xs
  {
    hide IsStale;
    assert (xs + [x])[..|xs|] == xs;
  }

  lemma {:induction false} StaleCounts(jobs: seq<AnalyticsJob>, ids: set<JobId>, first: map<JobId, Text>, responded: set<JobId>,
                                       now: int, parse: Parse, n: nat)
    requires n <= |jobs|
    ensures CountStale(Cohort(jobs[..n], ids, first), responded, now, parse)
            == N.HowMany(n, (i: nat) => i < |jobs| && jobs[i].id in ids && IsStale(Dated(jobs[i], first), responded, now, parse))
  {
    var p := (i: nat) => i < |jobs| && jobs[i].id in ids && IsStale(Dated(jobs[i], first), responded, now, parse);
    if n > 0 {
      hide IsStale, Dated, Cohort, CountStale;
      StaleCounts(jobs, ids, first, responded, now, parse, n - 1);
      N.OneMore(n - 1, p);
      CohortNext(jobs, ids, first, n - 1);
      StaleAppend(Cohort(jobs[..n - 1], ids, first), Dated(jobs[n - 1], first), responded, now, parse);
    } else {
      assert N.Hits(0, p) == {} && jobs[..0] == [];
    }
  }

  // ---------------------------------------------------------------- the figures of the page

  /** `t` is the least non-empty time of an applied event of the job. */
  predicate FirstTime(events: seq<AnalyticsEvent>, id: JobId, t: Text) {
    (exists e :: e in events && AppliedEvent(e, id) && e.createdAt == t) && t != EMPTY &&
    forall e :: e in events && AppliedEvent(e, id) && e.createdAt != EMPTY ==> t <= e.createdAt
  }

  /** The text from which the page takes the application's date: the column, or else the first applied event. */
  ghost predicate DatedBy(j: AnalyticsJob, events: seq<AnalyticsEvent>, text: Text) {
    if !Dateless(j) then text == j.appliedAt.v
    else FirstTime(events, j.id, text) || ((forall t :: !FirstTime(events, j.id, t)) && j.appliedAt == Val(text))
  }

  /** Applied, not advanced, not ended, unanswered, and dated 21 days back or more. */
  ghost predicate WaitsTooLong(jobs: seq<AnalyticsJob>, events: seq<AnalyticsEvent>, rows: seq<R.ReachedRow>, j: AnalyticsJob, now: int, parse: Parse) {
    j.status == Applied && !Tracked(j.stage) && j.stage != Closed && j.stage != Rejected && j.stage != Ghosted &&
    DidApply(jobs, events, rows, j.id) && !WasRejected(jobs, events, rows, j.id) && !WasReached(rows, j.id) &&
    exists text :: DatedBy(j, events, text) && parse(text).Val? && now - parse(text).v >= 21 * 24 * 3600 * 1000
  }

  lemma FirstTimeIs(jobs: seq<AnalyticsJob>, events: seq<AnalyticsEvent>, id: JobId, t: Text)
    requires id in JobIds(jobs)
    ensures var first := FirstApplied(JobIds(jobs), events); FirstTime(events, id, t) <==> id in first && first[id] == t
  {
    var known := JobIds(jobs);
    var first := FirstApplied(known, events);
    FirstAppliedIsLeast(known, events, id);
    forall e | e in events
      ensures IsAppliedEvent(e, known) && e.job == id <==> AppliedEvent(e, id)
    { }
    hide FirstApplied;
    if id in first {
      var e :| e in events && IsAppliedEvent(e, known) && e.job == id && e.createdAt == first[id];
      assert AppliedEvent(e, id);
    }
  }

  lemma DateIs(jobs: seq<AnalyticsJob>, events: seq<AnalyticsEvent>, j: AnalyticsJob, text: Text)
    requires j in jobs
    ensures Dated(j, FirstApplied(JobIds(jobs), events)).appliedAt == Val(text) <==> DatedBy(j, events, text)
  {
    hide FirstTime, FirstApplied;
    var first := FirstApplied(JobIds(jobs), events);
    forall t ensures FirstTime(events, j.id, t) <==> j.id in first && first[j.id] == t { FirstTimeIs(jobs, events, j.id, t); }
    if j.id in first { FirstTimeNotEmpty(events, j.id, first[j.id]); }
  }

  lemma FirstTimeNotEmpty(events: seq<AnalyticsEvent>, id: JobId, t: Text)
    requires FirstTime(events, id, t)
    ensures t != EMPTY
  {
  }

  predicate WasReached(rows: seq<R.ReachedRow>, id: JobId) { exists r :: r in rows && r.job == id && Tracked(r.stage) }

  lemma ReachedIdsAre(rows: seq<R.ReachedRow>, id: JobId)
    ensures id in ReachedIds(rows, TRACKED) <==> WasReached(rows, id)
  {
    if r :| r in rows && r.job == id && Tracked(r.stage) { assert r.stage in TRACKED; }
  }

  lemma StaleMeans(jobs: seq<AnalyticsJob>, events: seq<AnalyticsEvent>, rows: seq<R.ReachedRow>, j: AnalyticsJob, now: int, parse: Parse)
    requires j in jobs
    ensures var c := CohortsOf(jobs, events, rows);
            j.id in c.appliedIds && IsStale(Dated(j, FirstApplied(JobIds(jobs), events)), c.responded, now, parse) <==>
            WaitsTooLong(jobs, events, rows, j, now, parse)
  {
    hide FirstApplied, AppliedIds, Cohort, DidApply, WasRejected, DatedBy, RejectedIds, ReachedIds;
    AppliedIdsAre(jobs, events, rows, j.id);
    RejectedIdsAre(jobs, events, rows, j.id);
    ReachedIdsAre(rows, j.id);
    forall text: Text
      ensures Dated(j, FirstApplied(JobIds(jobs), events)).appliedAt == Val(text) <==> DatedBy(j, events, text)
    { DateIs(jobs, events, j, text); }
    var d := Dated(j, FirstApplied(JobIds(jobs), events));
    assert d.id == j.id && d.status == j.status && d.stage == j.stage;
    if d.appliedAt.Val? { assert DatedBy(j, events, d.appliedAt.v); }
  }

  /** `p` percent is the rate to the nearest percent, halves up; there is no rate over nothing. */
  predicate Percent(n: nat, d: nat, pct: Opt<int>) {
    if d == 0 then pct.Null? else pct.Val? && 2 * d * pct.v - d <= 200 * n < 2 * d * pct.v + d
  }

  lemma RateRounds(n: nat, d: nat)
    ensures NewRate(n, d).n == n && NewRate(n, d).d == d && Percent(n, d, NewRate(n, d).pct)
  {
    if d > 0 {
      var p := NewRate(n, d).pct.v;
      assert 2 * d * p <= 200 * n + d < 2 * d * p + 2 * d by { DivBounds(200 * n + d, 2 * d); }
    }
  }

  lemma DivBounds(a: int, b: int)
    requires b > 0
    ensures b * (a / b) <= a < b * (a / b) + b
  {
  }

  /** Applications: the listed jobs that were applied for. */
  lemma AppliedFigure(jobs: seq<AnalyticsJob>, events: seq<AnalyticsEvent>, rows: seq<R.ReachedRow>, now: int, parse: Parse)
    ensures HealthOf(jobs, events, rows, now, parse).applied == |set i: nat | i < |jobs| && DidApply(jobs, events, rows, jobs[i].id)|
    ensures FunnelOf(jobs, events, rows).applied == HealthOf(jobs, events, rows, now, parse).applied
  {
    hide DidApply, AppliedIds, FirstApplied;
    var ids := AppliedIds(jobs, events, rows);
    var p := (i: nat) => i < |jobs| && jobs[i].id in ids;
    assert jobs[..|jobs|] == jobs;
    CohortCounts(jobs, ids, FirstApplied(JobIds(jobs), events), |jobs|);
    forall i: nat | i < |jobs| ensures jobs[i].id in ids <==> DidApply(jobs, events, rows, jobs[i].id) { AppliedIdsAre(jobs, events, rows, jobs[i].id); }
    assert N.Hits(|jobs|, p) == set i: nat | i < |jobs| && DidApply(jobs, events, rows, jobs[i].id);
  }

  /** Active: applied or responded, and the stage not an end. */
  predicate Underway(j: AnalyticsJob) {
    (j.status == Applied || j.status == Responded) && j.stage != Closed && j.stage != Rejected && j.stage != Ghosted
  }

  lemma ActiveFigure(jobs: seq<AnalyticsJob>, events: seq<AnalyticsEvent>, rows: seq<R.ReachedRow>, now: int, parse: Parse)
    ensures HealthOf(jobs, events, rows, now, parse).active == |set i: nat | i < |jobs| && Underway(jobs[i])|
  {
    hide AppliedIds, FirstApplied, Cohort;
    var p := (i: nat) => i < |jobs| && IsActive(jobs[i]);
    assert jobs[..|jobs|] == jobs;
    ActiveCounts(jobs, |jobs|);
    assert N.Hits(|jobs|, p) == set i: nat | i < |jobs| && Underway(jobs[i]);
  }

  /** Stale: the listed jobs that wait for an answer for 21 days or more. */
  lemma StaleFigure(jobs: seq<AnalyticsJob>, events: seq<AnalyticsEvent>, rows: seq<R.ReachedRow>, now: int, parse: Parse, found: set<nat>)
    requires forall i: nat :: i in found <==> i < |jobs| && WaitsTooLong(jobs, events, rows, jobs[i], now, parse)
    ensures HealthOf(jobs, events, rows, now, parse).stale == |found|
  {
    hide WaitsTooLong, AppliedIds, FirstApplied, IsStale, Dated;
    var c := CohortsOf(jobs, events, rows);
    var first := FirstApplied(JobIds(jobs), events);
    assert jobs[..|jobs|] == jobs;
    StaleCounts(jobs, c.appliedIds, first, c.responded, now, parse, |jobs|);
    var p := (i: nat) => i < |jobs| && jobs[i].id in c.appliedIds && IsStale(Dated(jobs[i], first), c.responded, now, parse);
    forall i: nat | i < |jobs| ensures p(i) <==> i in found { StaleMeans(jobs, events, rows, jobs[i], now, parse); }
    assert N.Hits(|jobs|, p) == found;
  }

  /** Rejected and responded: the ids that were rejected, and those that were rejected or reached a tracked stage; with the two rates. */
  lemma AnswerFigures(jobs: seq<AnalyticsJob>, events: seq<AnalyticsEvent>, rows: seq<R.ReachedRow>, now: int, parse: Parse,
                      rejected: set<JobId>, responded: set<JobId>)
    requires forall id: JobId :: id in rejected <==> WasRejected(jobs, events, rows, id)
    requires forall id: JobId :: id in responded <==> WasRejected(jobs, events, rows, id) || WasReached(rows, id)
    ensures var h := HealthOf(jobs, events, rows, now, parse);
            h.rejected == |rejected| && h.responded == |responded| &&
            h.responseRate.n == h.responded && h.responseRate.d == h.applied && Percent(h.responded, h.applied, h.responseRate.pct) &&
            h.interviewRate.n == h.interviews && h.interviewRate.d == h.applied && Percent(h.interviews, h.applied, h.interviewRate.pct)
  {
    hide WasRejected, WasReached, AppliedIds, FirstApplied, Cohort, RejectedIds, ReachedIds, Percent, NewRate;
    var c := CohortsOf(jobs, events, rows);
    var h := HealthOf(jobs, events, rows, now, parse);
    forall id: JobId
      ensures id in c.rejected <==> id in rejected
      ensures id in c.responded <==> id in responded
    {
      RejectedIdsAre(jobs, events, rows, id);
      ReachedIdsAre(rows, id);
    }
    assert c.rejected == rejected && c.responded == responded;
    RateRounds(h.responded, h.applied);
    RateRounds(h.interviews, h.applied);
  }

  /** The funnel: the ids with a reached row of the stage, of `interview` and later, of `onsite` and later, and of `offer`. */
  lemma FunnelFigures(jobs: seq<AnalyticsJob>, events: seq<AnalyticsEvent>, rows: seq<R.ReachedRow>, now: int, parse: Parse)
    ensures var f := FunnelOf(jobs, events, rows);
            f.phoneScreen == (|set r | r in rows && r.stage == PhoneScreen :: r.job|) &&
            f.interview == (|set r | r in rows && (r.stage == Interview || r.stage == Onsite || r.stage == Offer) :: r.job|) &&
            f.onsite == (|set r | r in rows && (r.stage == Onsite || r.stage == Offer) :: r.job|) &&
            f.offer == (|set r | r in rows && r.stage == Offer :: r.job|)
    ensures HealthOf(jobs, events, rows, now, parse).interviews == FunnelOf(jobs, events, rows).interview
  {
    hide Cohort, AppliedIds, FirstApplied;
    assert ReachedIds(rows, {PhoneScreen}) == set r | r in rows && r.stage == PhoneScreen :: r.job;
    assert ReachedIds(rows, INTERVIEW_PLUS) == set r | r in rows && (r.stage == Interview || r.stage == Onsite || r.stage == Offer) :: r.job;
    assert ReachedIds(rows, ONSITE_PLUS) == set r | r in rows && (r.stage == Onsite || r.stage == Offer) :: r.job;
    assert ReachedIds(rows, {Offer}) == set r | r in rows && r.stage == Offer :: r.job;
  }

  // ---------------------------------------------------------------- the figures of the audit

  /** Changed to the stage in week `k` of the last four, the last one ending now. */
  predicate ChangedInWeek(e: AnalyticsEvent, k: int, now: int, parse: Parse) {
    e.kind == StageChange && parse(e.createdAt).Val? &&
    var age := now - parse(e.createdAt).v;
    match k
    case 0 => 21 * 86400000 < age <= 28 * 86400000
    case 1 => 14 * 86400000 < age <= 21 * 86400000
    case 2 => 7 * 86400000 < age <= 14 * 86400000
    case 3 => 0 <= age <= 7 * 86400000
    case _ => false
  }

  predicate CountsFor(e: AnalyticsEvent, m: A.Measure) {
    match m
    case Applications => e.to == Applied
    case Responses => Tracked(e.to) || e.to == Rejected
    case Interviews => e.to == Interview || e.to == Onsite || e.to == Offer
  }

  lemma WeekIs(e: AnalyticsEvent, k: int, now: int, parse: Parse)
    ensures A.InWeek(e, k, now, parse) <==> ChangedInWeek(e, k, now, parse)
  {
    A.WeekStarts(now);
    if !(0 <= k < 4) { } else if k == 0 { } else if k == 1 { } else if k == 2 { } else { assert k == 3; }
  }

  lemma {:induction false} WeekCounts(events: seq<AnalyticsEvent>, k: int, m: A.Measure, now: int, parse: Parse, n: nat)
    requires n <= |events|
    ensures A.CountWeek(events[..n], k, m, now, parse)
            == N.HowMany(n, (i: nat) => i < |events| && ChangedInWeek(events[i], k, now, parse) && CountsFor(events[i], m))
  {
    hide ChangedInWeek, A.InWeek;
    var p := (i: nat) => i < |events| && ChangedInWeek(events[i], k, now, parse) && CountsFor(events[i], m);
    if n > 0 {
      WeekCounts(events, k, m, now, parse, n - 1);
      N.OneMore(n - 1, p);
      WeekIs(events[n - 1], k, now, parse);
      assert events[..n][..n - 1] == events[..n - 1];
    } else {
      assert N.Hits(0, p) == {};
    }
  }

  /** Each number of the four weeks counts the stage changes of its kind in that week. */
  lemma WeekFigure(events: seq<AnalyticsEvent>, k: int, m: A.Measure, now: int, parse: Parse)
    ensures A.CountWeek(events, k, m, now, parse) ==
            |set i: nat | i < |events| && ChangedInWeek(events[i], k, now, parse) && CountsFor(events[i], m)|
  {
    hide ChangedInWeek, CountsFor;
    var p := (i: nat) => i < |events| && ChangedInWeek(events[i], k, now, parse) && CountsFor(events[i], m);
    assert events[..|events|] == events;
    WeekCounts(events, k, m, now, parse, |events|);
    assert N.Hits(|events|, p) == set i: nat | i < |events| && ChangedInWeek(events[i], k, now, parse) && CountsFor(events[i], m);
  }

  predicate HasEvent(events: seq<AnalyticsEvent>, id: JobId) { exists e :: e in events && AppliedEvent(e, id) }

  /** What the audit remarks on one job: no date but an event, neither but a reached stage, or a date on a job that was never moved. */
  predicate Remarked(events: seq<AnalyticsEvent>, rows: seq<R.ReachedRow>, j: AnalyticsJob, kind: A.Evidence) {
    match kind
    case AppliedAtOnly => !Dateless(j) && !HasEvent(events, j.id)
    case AppliedEventOnly => Dateless(j) && HasEvent(events, j.id)
    case NoMarker => Dateless(j) && !HasEvent(events, j.id) && WasReached(rows, j.id)
    case PendingWithAppliedAt => !Dateless(j) && (j.status == Blank || j.status == Pending)
  }

  lemma ShownIsRemarked(jobs: seq<AnalyticsJob>, events: seq<AnalyticsEvent>, rows: seq<R.ReachedRow>, j: AnalyticsJob, kind: A.Evidence)
    requires j in jobs && A.DistinctIds(jobs)
    ensures A.Shows(j, kind, AppliedAtIds(jobs), AppliedEventIds(JobIds(jobs), events), ReachedIds(rows, TRACKED)) <==> Remarked(events, rows, j, kind)
  {
    ReachedIdsAre(rows, j.id);
    if k :| k in jobs && HasAppliedAt(k) && k.id == j.id { SameJob(jobs, j, k); }
    if e :| e in events && AppliedEvent(e, j.id) { assert IsAppliedEvent(e, JobIds(jobs)); }
    if e :| e in events && IsAppliedEvent(e, JobIds(jobs)) && e.job == j.id { assert AppliedEvent(e, j.id); }
  }

  lemma SameJob(jobs: seq<AnalyticsJob>, j: AnalyticsJob, k: AnalyticsJob)
    requires A.DistinctIds(jobs) && j in jobs && k in jobs && j.id == k.id
    ensures j == k
  {
    var x :| 0 <= x < |jobs| && jobs[x] == j;
    var y :| 0 <= y < |jobs| && jobs[y] == k;
  }

  lemma {:induction false} EvidenceCounts(jobs: seq<AnalyticsJob>, kind: A.Evidence, at: set<JobId>, ev: set<JobId>, adv: set<JobId>, n: nat)
    requires n <= |jobs|
    ensures A.CountEvidence(jobs[..n], kind, at, ev, adv) == N.HowMany(n, (i: nat) => i < |jobs| && A.Shows(jobs[i], kind, at, ev, adv))
  {
    var p := (i: nat) => i < |jobs| && A.Shows(jobs[i], kind, at, ev, adv);
    if n > 0 {
      EvidenceCounts(jobs, kind, at, ev, adv, n - 1);
      N.OneMore(n - 1, p);
      assert jobs[..n][..n - 1] == jobs[..n - 1];
    } else {
      assert N.Hits(0, p) == {};
    }
  }

  /** For distinct jobs each reconciliation count is the number of jobs with that evidence. */
  lemma EvidenceFigure(jobs: seq<AnalyticsJob>, events: seq<AnalyticsEvent>, rows: seq<R.ReachedRow>, kind: A.Evidence)
    requires A.DistinctIds(jobs)
    ensures A.CountEvidence(jobs, kind, AppliedAtIds(jobs), AppliedEventIds(JobIds(jobs), events), ReachedIds(rows, TRACKED)) ==
            |set i: nat | i < |jobs| && Remarked(events, rows, jobs[i], kind)|
  {
    hide A.Shows, Remarked, AppliedAtIds, AppliedEventIds, ReachedIds, A.DistinctIds;
    var at, ev, adv := AppliedAtIds(jobs), AppliedEventIds(JobIds(jobs), events), ReachedIds(rows, TRACKED);
    var p := (i: nat) => i < |jobs| && A.Shows(jobs[i], kind, at, ev, adv);
    assert jobs[..|jobs|] == jobs;
    EvidenceCounts(jobs, kind, at, ev, adv, |jobs|);
    forall i: nat | i < |jobs| ensures A.Shows(jobs[i], kind, at, ev, adv) <==> Remarked(events, rows, jobs[i], kind) { ShownIsRemarked(jobs, events, rows, jobs[i], kind); }
    assert N.Hits(|jobs|, p) == set i: nat | i < |jobs| && Remarked(events, rows, jobs[i], kind);
  }

  /** And the audit's remarks on recovered and on never moved applications name exactly these numbers, when there are any. */
  lemma AuditRemarks(jobs: seq<AnalyticsJob>, events: seq<AnalyticsEvent>, rows: seq<R.ReachedRow>, now: int, parse: Parse, low: nat, thin: nat, n: nat)
    requires A.DistinctIds(jobs)
    ensures var recon := A.FullMetricsOf(jobs, events, rows, now, parse).recon;
            (A.IsRemark(recon, low, thin, A.RecoveredFromEvents(n)) <==>
               n > 0 && n == |set i: nat | i < |jobs| && Remarked(events, rows, jobs[i], A.AppliedEventOnly)|) &&
            (A.IsRemark(recon, low, thin, A.RecoveredFromStages(n)) <==>
               n > 0 && n == |set i: nat | i < |jobs| && Remarked(events, rows, jobs[i], A.NoMarker)|) &&
            (A.IsRemark(recon, low, thin, A.PendingApplied(n)) <==>
               n > 0 && n == |set i: nat | i < |jobs| && Remarked(events, rows, jobs[i], A.PendingWithAppliedAt)|)
  {
    hide Remarked, AppliedAtIds, AppliedEventIds, ReachedIds, A.DistinctIds, A.CountEvidence, Cohort, FirstApplied, AppliedIds, A.WeekOf, A.WindowOf, A.CountIn;
    EvidenceFigure(jobs, events, rows, A.AppliedEventOnly);
    EvidenceFigure(jobs, events, rows, A.NoMarker);
    EvidenceFigure(jobs, events, rows, A.PendingWithAppliedAt);
  }
}
